/**
 The single-flight barrier: callers for one key share one execution while its entry lives. Each region
 under the lock, each completion and each wake-up is one step; an entry is named by its creation order.
 The work behind an entry ends in a step of its own, which a timeout may precede.
 */
module Barrier {
  import opened Common

  /** Lifetimes of completed and of failed entries; the barrier raises the latter to a second. The former is also
      how long an owner waits for its work. */
  datatype Config = Config(ttl: int, neg: int)

  const SECOND := 1000

  function NewConfig(ttl: int, neg: int): (c: Config)
    ensures c.neg >= SECOND
  {
    Config(ttl, if neg < SECOND then SECOND else neg)
  }

  datatype Result = Result(val: nat, failed: bool)

  const TIMED_OUT := Result(0, true)

  datatype Entry<K> = Entry(key: K, dob: int, done: bool, result: Result, completions: nat)

  datatype Call = Owner(id: nat) | Waiting(id: nat) | Back(id: nat, shared: bool, result: Result)

  /** `works` holds what the work of each entry gave, once it has ended. */
  datatype State<K> = State(
    m: map<K, nat>,
    entries: seq<Entry<K>>,
    works: seq<Option<Result>>,
    calls: map<nat, Call>,
    closed: bool,
    now: int)

  datatype Event<K> =
    /** A call of Do up to its wait or its work. */
    | Enter(call: nat, k: K)
    /** The work of an entry ends. */
    | WorkEnds(id: nat, r: Result)
    /** The owner's select: the work's result, or a timeout. */
    | Complete(call: nat, timeout: bool)
    | Wake(call: nat)
    /** The background scrub over the keys it gets to. */
    | Scrub(ks: set<K>)
    | Close

  datatype Timed<K> = At(t: int, e: Event<K>)

  /** An entry that is still running has no error yet, so it lives as long as a completed one. */
  function Life<K>(c: Config, e: Entry<K>): int {
    if e.done && e.result.failed then c.neg else c.ttl
  }

  predicate Expired<K>(c: Config, e: Entry<K>, t: int) {
    t > e.dob + Life(c, e)
  }

  function Shortest(c: Config): int {
    if c.ttl < c.neg then c.ttl else c.neg
  }

  /** The live entry of a key, if any. */
  predicate Hit<K>(c: Config, s: State<K>, k: K, t: int) {
    !s.closed && k in s.m && s.m[k] < |s.entries| && !Expired(c, s.entries[s.m[k]], t)
  }

  function Entered<K>(c: Config, s: State<K>, call: nat, k: K, t: int): State<K> {
    if call in s.calls then s
    else if Hit(c, s, k, t) then s.(calls := s.calls[call := Waiting(s.m[k])])
    else
      var id := |s.entries|;
      s.(entries := s.entries + [Entry(k, t, false, Result(0, false), 0)],
         works := s.works + [None],
         m := if s.closed then s.m else s.m[k := id],
         calls := s.calls[call := Owner(id)])
  }

  function Worked<K>(s: State<K>, id: nat, r: Result): State<K> {
    if id < |s.works| && s.works[id].None? then s.(works := s.works[id := Some(r)]) else s
  }

  /** What the owner's select can give: a timeout once its time has come, the work's result once there is one. */
  function Selected<K>(c: Config, s: State<K>, id: nat, timeout: bool, t: int): Option<Result> {
    if id >= |s.entries| || id >= |s.works| then None
    else if !timeout then s.works[id]
    else if t >= s.entries[id].dob + c.ttl then Some(TIMED_OUT)
    else None
  }

  function Completed<K>(c: Config, s: State<K>, call: nat, timeout: bool, t: int): State<K> {
    if call in s.calls && s.calls[call].Owner? && Selected(c, s, s.calls[call].id, timeout, t).Some? then
      var id := s.calls[call].id;
      var e, r := s.entries[id], Selected(c, s, id, timeout, t).value;
      s.(entries := s.entries[id := e.(done := true, result := r, completions := e.completions + 1)],
         calls := s.calls[call := Back(id, false, r)])
    else s
  }

  function Woken<K>(s: State<K>, call: nat): State<K> {
    if call in s.calls && s.calls[call].Waiting? && s.calls[call].id < |s.entries| && s.entries[s.calls[call].id].done then
      s.(calls := s.calls[call := Back(s.calls[call].id, true, s.entries[s.calls[call].id].result)])
    else s
  }

  function Scrubbed<K>(c: Config, s: State<K>, ks: set<K>, t: int): map<K, nat> {
    map k | k in s.m && !(k in ks && s.m[k] < |s.entries| && Expired(c, s.entries[s.m[k]], t)) :: s.m[k]
  }

  function Step<K>(c: Config, s: State<K>, e: Timed<K>): State<K> {
    var r := match e.e
      case Enter(call, k) => Entered(c, s, call, k, e.t)
      case WorkEnds(id, r) => Worked(s, id, r)
      case Complete(call, timeout) => Completed(c, s, call, timeout, e.t)
      case Wake(call) => Woken(s, call)
      case Scrub(ks) => s.(m := Scrubbed(c, s, ks, e.t))
      case Close => s.(m := map[], closed := true);
    r.(now := e.t)
  }

  function Run<K(==)>(c: Config, es: seq<Timed<K>>): State<K> {
    if es == [] then State(map[], [], [], map[], false, 0) else Step(c, Run(c, es[..|es| - 1]), es[|es| - 1])
  }

  /** The clock does not run backwards. */
  predicate Timely<K>(es: seq<Timed<K>>) {
    es == [] || (Timely(es[..|es| - 1]) && es[|es| - 1].t >= if |es| == 1 then 0 else es[|es| - 2].t)
  }

  // ---- Spacing ---------------------------------------------------------------------------------

  /** The table only holds the newest entry of a key. */
  ghost predicate Tabled<K>(s: State<K>) {
    forall k :: k in s.m ==> s.m[k] < |s.entries| && s.entries[s.m[k]].key == k
  }

  /** While open, an entry is in the table or its shortest life is over. */
  ghost predicate Kept<K>(c: Config, s: State<K>) {
    !s.closed ==>
      forall i :: 0 <= i < |s.entries| ==>
        var e := s.entries[i]; (e.key in s.m && s.m[e.key] == i) || s.now > e.dob + Shortest(c)
  }

  /** Any two entries of one key are born more than the shortest life apart. */
  ghost predicate Spaced<K>(c: Config, entries: seq<Entry<K>>) {
    forall i, j :: 0 <= i < j < |entries| && entries[i].key == entries[j].key ==>
      entries[j].dob > entries[i].dob + Shortest(c)
  }

  ghost predicate Born<K>(s: State<K>) {
    forall i :: 0 <= i < |s.entries| ==> s.entries[i].dob <= s.now
  }

  ghost predicate SpacingInv<K>(c: Config, s: State<K>) {
    Tabled(s) && Kept(c, s) && Born(s) && (!s.closed ==> Spaced(c, s.entries))
  }

  lemma EnterSpaced<K>(c: Config, s: State<K>, call: nat, k: K, t: int)
    requires SpacingInv(c, s) && !s.closed && t >= s.now && call !in s.calls && !Hit(c, s, k, t)
    ensures Spaced(c, Entered(c, s, call, k, t).entries)
  {
    forall i | 0 <= i < |s.entries| && s.entries[i].key == k
      ensures t > s.entries[i].dob + Shortest(c)
    {
      if k in s.m && s.m[k] == i {
        assert Expired(c, s.entries[i], t);
      }
    }
  }

  lemma EnterKept<K>(c: Config, s: State<K>, call: nat, k: K, t: int)
    requires SpacingInv(c, s) && !s.closed && t >= s.now && call !in s.calls && !Hit(c, s, k, t)
    ensures Kept(c, Entered(c, s, call, k, t).(now := t))
  {
    forall i | 0 <= i < |s.entries|
      ensures var e := s.entries[i]; (e.key != k && e.key in s.m && s.m[e.key] == i) || t > e.dob + Shortest(c)
    {
      if k in s.m && s.m[k] == i {
        assert Expired(c, s.entries[i], t);
      }
    }
  }

  lemma EnterInv<K>(c: Config, s: State<K>, call: nat, k: K, t: int)
    requires SpacingInv(c, s) && t >= s.now
    ensures SpacingInv(c, Entered(c, s, call, k, t).(now := t))
  {
    if call !in s.calls && !Hit(c, s, k, t) && !s.closed {
      EnterSpaced(c, s, call, k, t);
      EnterKept(c, s, call, k, t);
    }
  }

  lemma CompleteInv<K>(c: Config, s: State<K>, call: nat, timeout: bool, t: int)
    requires SpacingInv(c, s) && t >= s.now
    ensures SpacingInv(c, Completed(c, s, call, timeout, t).(now := t))
  {
  }

  lemma ScrubInv<K>(c: Config, s: State<K>, ks: set<K>, t: int)
    requires SpacingInv(c, s) && t >= s.now
    ensures SpacingInv(c, s.(m := Scrubbed(c, s, ks, t), now := t))
  {
  }

  lemma QuietInv<K>(c: Config, s: State<K>, r: State<K>)
    requires SpacingInv(c, s) && r.entries == s.entries && r.now >= s.now
    requires (r.closed && r.m == map[]) || (r.m == s.m && r.closed == s.closed)
    ensures SpacingInv(c, r)
  {
  }

  lemma StepSpacing<K>(c: Config, s: State<K>, e: Timed<K>)
    requires SpacingInv(c, s) && e.t >= s.now
    ensures SpacingInv(c, Step(c, s, e))
  {
    match e.e {
      case Enter(call, k) => EnterInv(c, s, call, k, e.t);
      case WorkEnds(_, _) => QuietInv(c, s, Step(c, s, e));
      case Complete(call, timeout) => CompleteInv(c, s, call, timeout, e.t);
      case Wake(_) => QuietInv(c, s, Step(c, s, e));
      case Scrub(ks) => ScrubInv(c, s, ks, e.t);
      case Close => QuietInv(c, s, Step(c, s, e));
    }
  }

  lemma {:induction false} EveryRunSpaced<K>(c: Config, es: seq<Timed<K>>)
    requires Timely(es)
    ensures SpacingInv(c, Run(c, es))
    ensures Run(c, es).now == if es == [] then 0 else es[|es| - 1].t
  {
    if es != [] {
      EveryRunSpaced(c, es[..|es| - 1]);
      StepSpacing(c, Run(c, es[..|es| - 1]), es[|es| - 1]);
    }
  }

  /** While the barrier is open, executions for one key start more than the shortest life apart. */
  lemma SingleFlight<K>(c: Config, es: seq<Timed<K>>, i: nat, j: nat)
    requires Timely(es) && !Run(c, es).closed
    requires i < j < |Run(c, es).entries| && Run(c, es).entries[i].key == Run(c, es).entries[j].key
    ensures Run(c, es).entries[j].dob > Run(c, es).entries[i].dob + Shortest(c)
  {
    EveryRunSpaced(c, es);
  }

  // ---- In flight -------------------------------------------------------------------------------

  /** The work of the `i`-th entry has not ended. */
  predicate InFlight<K>(s: State<K>, i: nat) {
    i < |s.works| && s.works[i].None?
  }

  /** At most one execution in flight per key. */
  ghost predicate OneFlight<K>(s: State<K>) {
    forall i: nat, j: nat :: i < j < |s.entries| && InFlight(s, i) && InFlight(s, j) ==> s.entries[i].key != s.entries[j].key
  }

  /** The table may have let go of an execution that began at `dob` and is in flight at `t`. */
  predicate Late(c: Config, dob: int, t: int) {
    t > dob + c.ttl || (t == dob + c.ttl && c.neg < c.ttl)
  }

  ghost predicate Held<K>(c: Config, s: State<K>, i: nat)
    requires i < |s.entries|
  {
    var e := s.entries[i];
    && (e.done ==> s.now >= e.dob + c.ttl)
    && (s.closed || (e.key in s.m && s.m[e.key] == i) || Late(c, e.dob, s.now))
  }

  /** An execution in flight is held in the table until it is late, and completed by a timeout if at all. */
  ghost predicate FlightInv<K>(c: Config, s: State<K>) {
    Tabled(s) && |s.works| == |s.entries| && forall i :: 0 <= i < |s.entries| && InFlight(s, i) ==> Held(c, s, i)
  }

  lemma GoneIsLate<K>(c: Config, e: Entry<K>, now: int, t: int)
    requires e.done ==> now >= e.dob + c.ttl
    requires now <= t && Expired(c, e, t)
    ensures Late(c, e.dob, t)
  {
  }

  lemma EnterFlight<K>(c: Config, s: State<K>, call: nat, k: K, t: int)
    requires FlightInv(c, s) && t >= s.now
    ensures FlightInv(c, Entered(c, s, call, k, t).(now := t))
  {
    var r := Entered(c, s, call, k, t).(now := t);
    forall i | 0 <= i < |r.entries| && InFlight(r, i)
      ensures Held(c, r, i)
    {
      if i < |s.entries| {
        assert InFlight(s, i) && Held(c, s, i);
        if k in s.m && s.m[k] == i && Expired(c, s.entries[i], t) {
          GoneIsLate(c, s.entries[i], s.now, t);
        }
      }
    }
  }

  lemma ScrubFlight<K>(c: Config, s: State<K>, ks: set<K>, t: int)
    requires FlightInv(c, s) && t >= s.now
    ensures FlightInv(c, s.(m := Scrubbed(c, s, ks, t), now := t))
  {
    var r := s.(m := Scrubbed(c, s, ks, t), now := t);
    forall i | 0 <= i < |r.entries| && InFlight(r, i)
      ensures Held(c, r, i)
    {
      assert InFlight(s, i) && Held(c, s, i);
      if Expired(c, s.entries[i], t) {
        GoneIsLate(c, s.entries[i], s.now, t);
      }
    }
  }

  lemma CompleteFlight<K>(c: Config, s: State<K>, call: nat, timeout: bool, t: int)
    requires FlightInv(c, s) && t >= s.now
    ensures FlightInv(c, Completed(c, s, call, timeout, t).(now := t))
  {
    var r := Completed(c, s, call, timeout, t).(now := t);
    forall i | 0 <= i < |r.entries| && InFlight(r, i)
      ensures Held(c, r, i)
    {
      assert InFlight(s, i) && Held(c, s, i);
    }
  }

  lemma WorkFlight<K>(c: Config, s: State<K>, id: nat, r: Result, t: int)
    requires FlightInv(c, s) && t >= s.now
    ensures FlightInv(c, Worked(s, id, r).(now := t))
  {
    var w := Worked(s, id, r).(now := t);
    forall i | 0 <= i < |w.entries| && InFlight(w, i)
      ensures Held(c, w, i)
    {
      assert InFlight(s, i) && Held(c, s, i);
    }
  }

  lemma StepFlight<K>(c: Config, s: State<K>, e: Timed<K>)
    requires FlightInv(c, s) && e.t >= s.now
    ensures FlightInv(c, Step(c, s, e))
  {
    match e.e {
      case Enter(call, k) => EnterFlight(c, s, call, k, e.t);
      case WorkEnds(id, r) => WorkFlight(c, s, id, r, e.t);
      case Complete(call, timeout) => CompleteFlight(c, s, call, timeout, e.t);
      case Wake(_) => StaysHeld(c, s, Step(c, s, e));
      case Scrub(ks) => ScrubFlight(c, s, ks, e.t);
      case Close => StaysHeld(c, s, Step(c, s, e));
    }
  }

  lemma StaysHeld<K>(c: Config, s: State<K>, r: State<K>)
    requires FlightInv(c, s) && r.entries == s.entries && r.works == s.works && r.now >= s.now
    requires (r.closed && r.m == map[]) || (r.m == s.m && r.closed == s.closed)
    ensures FlightInv(c, r)
  {
    forall i | 0 <= i < |r.entries| && InFlight(r, i)
      ensures Held(c, r, i)
    {
      assert InFlight(s, i) && Held(c, s, i);
    }
  }

  /** A call that comes before an execution in flight is late shares it. */
  lemma JoinedInTime<K>(c: Config, s: State<K>, k: K, t: int, i: nat)
    requires FlightInv(c, s) && !s.closed && t >= s.now
    requires i < |s.entries| && InFlight(s, i) && s.entries[i].key == k && !Late(c, s.entries[i].dob, t)
    ensures Hit(c, s, k, t) && s.m[k] == i
  {
    assert Held(c, s, i);
  }

  /** Nothing in flight at `t` began more than `d` before. */
  ghost predicate Young<K>(s: State<K>, t: int, d: nat) {
    forall i: nat :: i < |s.entries| && InFlight(s, i) ==> t <= s.entries[i].dob + d
  }

  /** No work is in flight for longer than `d`. */
  ghost predicate Brief<K>(c: Config, es: seq<Timed<K>>, d: nat) {
    es == [] || (Brief(c, es[..|es| - 1], d) && Young(Run(c, es[..|es| - 1]), es[|es| - 1].t, d))
  }

  lemma StepOneFlight<K>(c: Config, s: State<K>, e: Timed<K>, d: nat)
    requires FlightInv(c, s) && !s.closed && OneFlight(s) && e.t >= s.now && !Late(c, 0, d)
    requires Young(s, e.t, d)
    ensures OneFlight(Step(c, s, e))
  {
    var r := Step(c, s, e);
    forall i: nat, j: nat | i < j < |r.entries| && InFlight(r, i) && InFlight(r, j)
      ensures r.entries[i].key != r.entries[j].key
    {
      assert InFlight(s, i);
      if j < |s.entries| {
        assert InFlight(s, j);
      } else if s.entries[i].key == e.e.k {
        JoinedInTime(c, s, e.e.k, e.t, i);
      }
    }
  }

  lemma {:induction false} BriefIsAlone<K>(c: Config, es: seq<Timed<K>>, d: nat)
    requires Timely(es) && !Late(c, 0, d) && Brief(c, es, d)
    ensures FlightInv(c, Run(c, es)) && Run(c, es).now == if es == [] then 0 else es[|es| - 1].t
    ensures !Run(c, es).closed ==> OneFlight(Run(c, es))
  {
    if es != [] {
      var s, e := Run(c, es[..|es| - 1]), es[|es| - 1];
      BriefIsAlone(c, es[..|es| - 1], d);
      StepFlight(c, s, e);
      if !s.closed {
        StepOneFlight(c, s, e, d);
      }
    }
  }

  lemma RunNext<K>(c: Config, es: seq<Timed<K>>, e: Timed<K>, d: nat)
    ensures Run(c, es + [e]) == Step(c, Run(c, es), e)
    ensures Brief(c, es + [e], d) <==> Brief(c, es, d) && Young(Run(c, es), e.t, d)
  {
    assert (es + [e])[..|es + [e]| - 1] == es;
  }

  /** Two calls for one key, the second `d` after the first, with or without a timeout just before. */
  function Twice<K>(k: K, d: nat, timeout: bool): seq<Timed<K>> {
    [At(0, Enter(0, k))] + (if timeout then [At(d, Complete(0, true))] else []) + [At(d, Enter(1, k))]
  }

  lemma TwiceTimely<K>(k: K, d: nat, timeout: bool)
    ensures Timely(Twice(k, d, timeout))
  {
    var es: seq<Timed<K>> := Twice(k, d, timeout);
    assert Timely(es[..1]) && (timeout ==> es[..2][..1] == es[..1] && Timely(es[..2]));
  }

  /** After the first call. */
  function Started<K>(k: K): State<K> {
    State(map[k := 0], [Entry(k, 0, false, Result(0, false), 0)], [None], map[0 := Owner(0)], false, 0)
  }

  lemma FirstCall<K>(c: Config, k: K, d: nat)
    ensures Run(c, [At(0, Enter(0, k))]) == Started(k) && Brief(c, [At(0, Enter(0, k))], d)
  {
    var none: seq<Timed<K>> := [];
    var a := At(0, Enter(0, k));
    assert none + [a] == [a];
    RunNext(c, none, a, d);
  }

  /** One execution for `k` in flight since 0, and owner 0. */
  predicate FlyingOnly<K>(s: State<K>, k: K) {
    && |s.entries| == 1 && s.entries[0].key == k && s.entries[0].dob == 0 && s.works == [None]
    && s.m == map[k := 0] && 1 !in s.calls && !s.closed
  }

  lemma SecondCall<K>(c: Config, s: State<K>, k: K, d: nat)
    requires FlyingOnly(s, k) && Expired(c, s.entries[0], d)
    ensures Young(s, d, d) && !OneFlight(Step(c, s, At(d, Enter(1, k)))) && !Step(c, s, At(d, Enter(1, k))).closed
  {
    var f := Step(c, s, At(d, Enter(1, k)));
    assert InFlight(f, 0) && InFlight(f, 1) && f.entries[1].key == k;
  }

  lemma TimedOut<K>(c: Config, k: K, d: nat)
    requires d >= c.ttl && d > c.neg
    ensures var s := Step(c, Started(k), At(d, Complete(0, true)));
            FlyingOnly(s, k) && Expired(c, s.entries[0], d) && Young(Started(k), d, d)
  {
  }

  /** When the work of the first call lasts, two are in flight. */
  lemma TwiceDoubles<K>(c: Config, k: K, d: nat, timeout: bool)
    requires if timeout then d >= c.ttl && d > c.neg else d > c.ttl
    ensures var es := Twice(k, d, timeout);
            Timely(es) && Brief(c, es, d) && !Run(c, es).closed && !OneFlight(Run(c, es))
  {
    TwiceTimely(k, d, timeout);
    FirstCall(c, k, d);
    var a, x, b := At(0, Enter(0, k)), At(d, Complete(0, true)), At(d, Enter(1, k));
    var mid := if timeout then [a] + [x] else [a];
    if timeout {
      TimedOut(c, k, d);
      RunNext(c, [a], x, d);
    }
    SecondCall(c, Run(c, mid), k, d);
    RunNext(c, mid, b, d);
    TwiceIs(k, d, timeout, mid + [b]);
  }

  lemma TwiceIs<K>(k: K, d: nat, timeout: bool, es: seq<Timed<K>>)
    requires var a, b := At(0, Enter(0, k)), At(d, Enter(1, k));
             es == (if timeout then [a] + [At(d, Complete(0, true))] else [a]) + [b]
    ensures Twice(k, d, timeout) == es
  {
  }

  /** At most one execution is in flight per key in every run of an open barrier whose works take at most `d`, if
      and only if `d` is shorter than the time the owner waits, or as long and failures live no shorter. */
  lemma OneFlightIff<K(!new)>(c: Config, k: K, d: nat)
    ensures (forall es: seq<Timed<K>> :: Timely(es) && Brief(c, es, d) && !Run(c, es).closed ==> OneFlight(Run(c, es))) <==>
            d < c.ttl || d == c.ttl <= c.neg
  {
    if Late(c, 0, d) {
      TwiceDoubles(c, k, d, d == c.ttl);
    } else {
      forall es: seq<Timed<K>> | Timely(es) && Brief(c, es, d) && !Run(c, es).closed
        ensures OneFlight(Run(c, es))
      {
        BriefIsAlone(c, es, d);
      }
    }
  }

  /** For one: a work that outlasts a timeout of five seconds, when failures live for one. */
  lemma TimeoutDoubles()
    ensures var c, es := NewConfig(5 * SECOND, 0), Twice("k", 5 * SECOND, true);
            Timely(es) && !OneFlight(Run(c, es))
  {
    TwiceDoubles(NewConfig(5 * SECOND, 0), "k", 5 * SECOND, true);
  }

  // ---- Completion ------------------------------------------------------------------------------

  /** An entry has been completed once if it is done and not at all otherwise; an owner still has it to do. */
  ghost predicate Once<K>(entries: seq<Entry<K>>) {
    forall i :: 0 <= i < |entries| ==> entries[i].completions == if entries[i].done then 1 else 0
  }

  ghost predicate CallsOk<K>(entries: seq<Entry<K>>, calls: map<nat, Call>) {
    forall x :: x in calls ==>
      var call := calls[x];
      && call.id < |entries|
      && (call.Owner? ==> !entries[call.id].done)
      && (call.Back? ==> entries[call.id].done && call.result == entries[call.id].result)
  }

  /** One owner per entry, ever. */
  ghost predicate OneOwner(calls: map<nat, Call>) {
    forall x, y :: x in calls && y in calls && Owns(calls[x]) && Owns(calls[y]) && calls[x].id == calls[y].id ==> x == y
  }

  predicate Owns(call: Call) {
    call.Owner? || (call.Back? && !call.shared)
  }

  ghost predicate CompletionInv<K>(s: State<K>) {
    Once(s.entries) && CallsOk(s.entries, s.calls) && OneOwner(s.calls)
  }

  lemma CompletedOk<K>(c: Config, s: State<K>, call: nat, timeout: bool, t: int)
    requires CompletionInv(s)
    ensures CompletionInv(Completed(c, s, call, timeout, t))
  {
    if call in s.calls && s.calls[call].Owner? {
      var s' := Completed(c, s, call, timeout, t);
      forall x | x in s'.calls
        ensures s'.calls[x].Owner? ==> !s'.entries[s'.calls[x].id].done
        ensures s'.calls[x].Back? ==> s'.calls[x].result == s'.entries[s'.calls[x].id].result
      {
        if x != call {
          assert Owns(s.calls[call]);
          assert s.calls[x].Owner? ==> Owns(s.calls[x]);
        }
      }
    }
  }

  lemma EnteredOk<K>(c: Config, s: State<K>, call: nat, k: K, t: int)
    requires CompletionInv(s)
    ensures CompletionInv(Entered(c, s, call, k, t))
  {
  }

  lemma {:induction false} EveryRunCompletes<K>(c: Config, es: seq<Timed<K>>)
    ensures CompletionInv(Run(c, es))
  {
    if es != [] {
      var s, e := Run(c, es[..|es| - 1]), es[|es| - 1];
      EveryRunCompletes(c, es[..|es| - 1]);
      match e.e {
        case Enter(call, k) => EnteredOk(c, s, call, k, e.t);
        case WorkEnds(_, _) =>
        case Complete(call, timeout) => CompletedOk(c, s, call, timeout, e.t);
        case Wake(_) =>
        case Scrub(_) =>
        case Close =>
      }
    }
  }

  lemma StepKeepsDone<K>(c: Config, s: State<K>, e: Timed<K>, i: nat)
    requires CompletionInv(s) && i < |s.entries|
    ensures i < |Step(c, s, e).entries|
    ensures s.entries[i].done ==> Step(c, s, e).entries[i] == s.entries[i]
  {
  }

  /** A completed entry never changes again, even when the work behind a timeout finishes late. */
  lemma {:induction false} DoneIsFinal<K>(c: Config, es: seq<Timed<K>>, fs: seq<Timed<K>>, i: nat)
    requires i < |Run(c, es).entries| && Run(c, es).entries[i].done
    ensures i < |Run(c, es + fs).entries| && Run(c, es + fs).entries[i] == Run(c, es).entries[i]
  {
    if fs == [] {
      assert es + fs == es;
    } else {
      var gs := es + fs[..|fs| - 1];
      DoneIsFinal(c, es, fs[..|fs| - 1], i);
      assert (es + fs)[..|es + fs| - 1] == gs;
      EveryRunCompletes(c, gs);
      StepKeepsDone(c, Run(c, gs), fs[|fs| - 1], i);
    }
  }

  /** A shared caller is only back once the owner's entry is complete, with exactly the owner's result, for good. */
  lemma SharedSeesOwner<K>(c: Config, es: seq<Timed<K>>, fs: seq<Timed<K>>, x: nat)
    requires x in Run(c, es).calls && Run(c, es).calls[x].Back?
    ensures var call := Run(c, es).calls[x];
            call.id < |Run(c, es + fs).entries| && Run(c, es + fs).entries[call.id].done
            && Run(c, es + fs).entries[call.id].completions == 1
            && Run(c, es + fs).entries[call.id].result == call.result
  {
    EveryRunCompletes(c, es);
    DoneIsFinal(c, es, fs, Run(c, es).calls[x].id);
  }
}
