/**
 The retrying connection: early writes are teed, and replayed on a fresh connection when the first
 read fails. One thread reads and one writes, as the type's documentation asks; a step is one region
 under the mutex or one wait. A connection is the log of the bytes written to it.
 */
module Retrier {
  import opened Common

  /** `failed` once a write on it returned an error; `dialer` is the index of the dialer that made it. */
  datatype Conn = Conn(log: Bytes, failed: bool, dialer: nat)

  /** A writer waiting for the retry to finish: its bytes, and where in the stream they start. */
  datatype Pending = Pending(b: Bytes, off: nat)

  datatype RetryState = RetryState(
    conn: Option<Conn>,
    tee: Bytes,
    retryCount: nat,
    nextDialer: nat,
    retryWriteErr: bool,
    done: bool,
    // settings
    maxRetries: nat,
    canRetry: bool,
    multidial: bool,
    dialers: nat,
    // the writer, when it waits
    waiting: Option<Pending>,
    // history: signals sent, the tee when the first was sent, whether the connection kept then had
    // lost a write, and the bytes written after
    signals: nat,
    replayed: Bytes,
    lossy: bool,
    late: Bytes)

  /** What one connection attempt of the retry loop runs into: which dialers connect, how many bytes
      of the tee get through (all, or fewer with an error), and whether the read then succeeds. */
  datatype Attempt = Attempt(connects: nat -> bool, through: nat, readOk: bool)

  /** Write: all of `b`, or an error and fewer bytes. */
  function Wrote(c: Conn, b: Bytes, through: nat): Conn {
    if through >= |b| then c.(log := c.log + b) else c.(log := c.log + b[..through], failed := true)
  }

  /** The first dialer from `i` on that connects, or `n`. */
  function FirstConnecting(connects: nat -> bool, i: nat, n: nat): (j: nat)
    ensures i <= n ==> i <= j <= n
    ensures j < n ==> connects(j)
    decreases n - i
  {
    if i >= n then i else if connects(i) then i else FirstConnecting(connects, i + 1, n)
  }

  /** dialerID */
  function DialerId(r: RetryState): int {
    if r.multidial then Min(Max(0, r.nextDialer - 1), r.dialers - 1) else 0
  }

  /** dialLocked with doDialLocked: a fresh connection, or none. */
  function Dialed(r: RetryState, connects: nat -> bool): (d: RetryState)
    ensures d.retryCount == r.retryCount && d.maxRetries == r.maxRetries
  {
    if r.multidial then
      var from := if r.nextDialer >= r.dialers && r.retryCount < r.maxRetries then 0 else r.nextDialer;
      var j := FirstConnecting(connects, from, r.dialers);
      if j < r.dialers then r.(conn := Some(Conn([], false, j)), nextDialer := j + 1)
      else r.(conn := None, nextDialer := j)
    else if connects(0) then r.(conn := Some(Conn([], false, 0)))
    else r.(conn := None)
  }

  /** retryWriteReadLocked: redial, replay the tee, read. The flag says whether all three worked. */
  function Retried(r: RetryState, a: Attempt): (res: (RetryState, bool))
    ensures res.0.retryCount == r.retryCount && res.0.maxRetries == r.maxRetries
  {
    ReplayedOn(Dialed(r, a.connects), a)
  }

  function ReplayedOn(d: RetryState, a: Attempt): (RetryState, bool) {
    match d.conn
    case None => (d, false)
    case Some(c) =>
      var wrote := Wrote(c, d.tee, a.through);
      (d.(conn := Some(wrote), retryWriteErr := wrote.failed), !wrote.failed && a.readOk)
  }

  predicate RetryStops(r: RetryState, ok: bool) {
    (r.conn.Some? && ok) || !r.canRetry || r.retryCount >= r.maxRetries
  }

  /** The retry loop of Read, entered with the outcome of the first read; the flag is that of the last. */
  function RetryLoop(r: RetryState, ok: bool, attempts: nat -> Attempt): (RetryState, bool)
    decreases r.maxRetries - r.retryCount
  {
    if RetryStops(r, ok) then (r, ok)
    else
      var t := Turned(r, attempts);
      RetryLoop(t.0, t.1, attempts)
  }

  /** One more retry. */
  function Turned(r: RetryState, attempts: nat -> Attempt): (res: (RetryState, bool))
    ensures res.0.retryCount == r.retryCount + 1 && res.0.maxRetries == r.maxRetries
  {
    var n := r.(retryCount := r.retryCount + 1);
    Retried(n, attempts(n.retryCount))
  }

  /** The part of Read under the mutex: retry as needed, signal completion, drop the tee. */
  function Completed(r: RetryState, ok: bool, attempts: nat -> Attempt): (RetryState, Outcome) {
    if r.done then (r, ReadOutcome(r, ok))
    else
      var l := RetryLoop(r, ok, attempts);
      (Signalled(l.0), ReadOutcome(l.0, l.1))
  }

  lemma CompletedIs(r: RetryState, ok: bool, attempts: nat -> Attempt, l: (RetryState, bool))
    requires !r.done && l == RetryLoop(r, ok, attempts)
    ensures Completed(r, ok, attempts) == (Signalled(l.0), ReadOutcome(l.0, l.1))
  {
  }

  /** What Read tells its caller: data, or an error. */
  function ReadOutcome(r: RetryState, ok: bool): Outcome {
    if r.conn.Some? && ok then Received else Failed
  }

  function Signalled(l: RetryState): RetryState {
    l.(done := true, tee := [], signals := l.signals + 1, replayed := l.tee,
       lossy := l.conn.Some? && l.conn.value.failed, late := [])
  }

  datatype Event =
    | WriteStart(b: Bytes, through: nat)
    | WaitTimedOut
    | WaitEnded
    | ReadDone(ok: bool, attempts: nat -> Attempt)

  /** What a call told its caller: a Read without error received, and an acknowledged Write names where
      its bytes start in the stream. */
  datatype Outcome = Silent | Failed | Received | Acked(b: Bytes, off: nat)

  /** teedFirstWrite and, after completion, the plain write. */
  function WriteStarted(r: RetryState, b: Bytes, through: nat): (RetryState, Outcome) {
    if r.conn.None? then (r, Failed)
    else
      var c := Wrote(r.conn.value, b, through);
      if !r.done then
        var t := r.(conn := Some(c), tee := r.tee + b);
        if through >= |b| then (t, Acked(b, |r.tee|))
        else (t.(waiting := Some(Pending(b, |r.tee|))), Silent)
      else
        (r.(conn := Some(c), late := r.late + b[..Min(through, |b|)]),
         if through >= |b| then Acked(b, |r.replayed| + |r.late|) else Failed)
  }

  /** The end of a Write whose first attempt failed, once completion has been signalled. */
  function WaitEnded_(r: RetryState): (RetryState, Outcome) {
    if r.waiting.None? || !r.done then (r, Silent)
    else (r.(waiting := None),
          if r.retryWriteErr || r.conn.None? then Failed else Acked(r.waiting.value.b, r.waiting.value.off))
  }

  function Step(r: RetryState, e: Event): (RetryState, Outcome) {
    match e
    case WriteStart(b, through) => if r.waiting.Some? then (r, Silent) else WriteStarted(r, b, through)
    case WaitTimedOut => if r.waiting.Some? then (r.(waiting := None), Failed) else (r, Silent)
    case WaitEnded => WaitEnded_(r)
    case ReadDone(ok, attempts) => Completed(r, ok, attempts)
  }

  function Run(r: RetryState, es: seq<Event>): RetryState {
    if es == [] then r else Step(Run(r, es[..|es| - 1]), es[|es| - 1]).0
  }

  /** A retrier as it leaves its constructor: connected, nothing written. maxRetries is a byte. */
  predicate Started(r: RetryState) {
    && r.conn.Some? && r.conn.value.log == [] && !r.conn.value.failed
    && r.tee == [] && r.retryCount == 0 && !r.retryWriteErr && !r.done && r.signals == 0
    && r.waiting.None? && !r.lossy && r.late == [] && r.replayed == []
    && r.dialers >= 1
    && (r.multidial ==> r.canRetry && r.maxRetries == r.dialers % 256
                        && r.conn.value.dialer < r.dialers && r.nextDialer == r.conn.value.dialer + 1)
    && (!r.multidial ==> r.conn.value.dialer == 0)
  }

  // ---- What every step keeps ---------------------------------------------------------------

  /** The live connection was made by the dialer dialerID names. */
  predicate NamesDialer(r: RetryState) {
    && r.dialers >= 1
    && (r.multidial ==> r.nextDialer <= r.dialers)
    && (r.conn.Some? ==> r.conn.value.dialer == DialerId(r))
  }

  /** Until completion there is a connection, and it carries the tee unless a write on it failed. */
  predicate CarriesTee(r: RetryState) {
    r.conn.Some? && |r.conn.value.log| <= |r.tee| && (r.conn.value.failed || r.conn.value.log == r.tee)
  }

  /** After completion the kept connection, unless it had lost a write, carries the whole tee and then
      exactly what was written later. */
  predicate CarriesStream(r: RetryState) {
    r.conn.Some? && !r.lossy ==> r.conn.value.log == r.replayed + r.late
  }

  predicate Inv(r: RetryState) {
    && NamesDialer(r)
    && r.retryCount <= r.maxRetries
    && (r.done ==> r.signals == 1 && r.tee == [] && CarriesStream(r))
    && (!r.done ==> r.signals == 0 && r.retryCount == 0 && !r.retryWriteErr && CarriesTee(r))
    && (r.waiting.Some? && !r.done ==>
          && r.conn.value.failed && |r.conn.value.log| < |r.tee|
          && r.waiting.value.off + |r.waiting.value.b| == |r.tee| && r.tee[r.waiting.value.off..] == r.waiting.value.b)
    && (r.waiting.Some? && r.done ==>
          && r.late == []
          && r.waiting.value.off + |r.waiting.value.b| == |r.replayed|
          && r.replayed[r.waiting.value.off..] == r.waiting.value.b)
    && (r.done && r.retryCount > 0 && r.conn.Some? ==> r.lossy == r.retryWriteErr)
    && (r.done && r.retryCount == 0 ==>
          && r.conn.Some? && !r.retryWriteErr
          && (r.waiting.Some? ==> |r.conn.value.log| < |r.replayed|))
  }

  /** What the loop ends with once it has run at least once. */
  predicate Replayed(r: RetryState, l: RetryState) {
    && l.retryCount > 0
    && (l.conn.Some? && !l.retryWriteErr ==> l.conn.value.log == r.tee && !l.conn.value.failed)
    && (l.conn.Some? && l.retryWriteErr ==> l.conn.value.failed)
  }

  /** The loop changes the connection, the counters and the write error; nothing else. */
  predicate LoopFrame(r: RetryState, l: RetryState) {
    l == r.(conn := l.conn, retryCount := l.retryCount, nextDialer := l.nextDialer, retryWriteErr := l.retryWriteErr)
  }

  lemma MultidialEffect(r: RetryState, connects: nat -> bool)
    requires NamesDialer(r) && r.multidial
    ensures var d := Dialed(r, connects);
            && NamesDialer(d) && d == r.(conn := d.conn, nextDialer := d.nextDialer)
            && (d.conn.Some? ==> d.conn.value.log == [] && !d.conn.value.failed)
  {
  }

  lemma DialedEffect(r: RetryState, connects: nat -> bool)
    requires NamesDialer(r)
    ensures var d := Dialed(r, connects);
            && NamesDialer(d) && d == r.(conn := d.conn, nextDialer := d.nextDialer)
            && (d.conn.Some? ==> d.conn.value.log == [] && !d.conn.value.failed)
  {
    if r.multidial {
      MultidialEffect(r, connects);
    }
  }

  lemma ReplayEffect(d: RetryState, a: Attempt)
    requires d.conn.Some? ==> d.conn.value.log == [] && !d.conn.value.failed
    ensures var (l, ok) := ReplayedOn(d, a);
            && l == d.(conn := l.conn, retryWriteErr := l.retryWriteErr)
            && (l.conn.Some? <==> d.conn.Some?) && (ok ==> l.conn.Some?)
            && (l.conn.Some? ==> l.conn.value.dialer == d.conn.value.dialer && l.conn.value.failed == l.retryWriteErr)
            && (l.conn.Some? && !l.retryWriteErr ==> l.conn.value.log == d.tee)
  {
    assert [] + d.tee == d.tee;
  }

  lemma RetriedEffect(r: RetryState, a: Attempt)
    requires NamesDialer(r) && r.retryCount > 0
    ensures var (l, ok) := Retried(r, a);
            && NamesDialer(l) && LoopFrame(r, l) && l.retryCount == r.retryCount && Replayed(r, l)
            && (ok ==> l.conn.Some?)
  {
    DialedEffect(r, a.connects);
    ReplayEffect(Dialed(r, a.connects), a);
  }

  lemma TurnedEffect(r: RetryState, attempts: nat -> Attempt)
    requires NamesDialer(r)
    ensures var t := Turned(r, attempts);
            && NamesDialer(t.0) && LoopFrame(r, t.0) && Replayed(r, t.0)
  {
    var n := r.(retryCount := r.retryCount + 1);
    RetriedEffect(n, attempts(n.retryCount));
  }

  lemma {:induction false} RetryLoopEffect(r: RetryState, ok: bool, attempts: nat -> Attempt)
    requires NamesDialer(r) && r.retryCount <= r.maxRetries
    requires r.retryCount > 0 ==> Replayed(r, r)
    ensures var l := RetryLoop(r, ok, attempts).0;
            && NamesDialer(l) && LoopFrame(r, l)
            && r.retryCount <= l.retryCount <= r.maxRetries
            && (l.retryCount == r.retryCount ==> l == r)
            && (l.retryCount > 0 ==> Replayed(r, l))
    decreases r.maxRetries - r.retryCount
  {
    if !RetryStops(r, ok) {
      TurnedEffect(r, attempts);
      var t := Turned(r, attempts);
      RetryLoopEffect(t.0, t.1, attempts);
      assert LoopFrame(r, t.0) && LoopFrame(t.0, RetryLoop(t.0, t.1, attempts).0);
    }
  }

  lemma StepInv(r: RetryState, e: Event)
    requires Inv(r)
    ensures Inv(Step(r, e).0)
  {
    match e
    case WriteStart(b, through) =>
      if r.waiting.None? && !r.done {
        EarlyWriteInv(r, b, through);
      } else if r.waiting.None? && r.conn.Some? {
        LateWriteInv(r, b, through);
      }
    case WaitTimedOut =>
    case WaitEnded =>
    case ReadDone(ok, attempts) =>
      if !r.done {
        RetryLoopEffect(r, ok, attempts);
        var l := RetryLoop(r, ok, attempts);
        CompletedIs(r, ok, attempts, l);
        SignalledInv(r, l.0);
      }
  }

  lemma SignalledInv(r: RetryState, l: RetryState)
    requires Inv(r) && !r.done && NamesDialer(l) && LoopFrame(r, l) && l.retryCount <= r.maxRetries
    requires l.retryCount == 0 ==> l == r
    requires l.retryCount > 0 ==> Replayed(r, l)
    ensures Inv(Signalled(l))
  {
    assert r.tee + [] == r.tee;
  }

  lemma EarlyWriteInv(r: RetryState, b: Bytes, through: nat)
    requires Inv(r) && r.waiting.None? && !r.done
    ensures Inv(WriteStarted(r, b, through).0)
  {
    assert (r.tee + b)[|r.tee|..] == b;
  }

  lemma LateWriteInv(r: RetryState, b: Bytes, through: nat)
    requires Inv(r) && r.waiting.None? && r.done && r.conn.Some?
    ensures Inv(WriteStarted(r, b, through).0)
  {
    var w := b[..Min(through, |b|)];
    assert through >= |b| ==> w == b;
    assert r.replayed + (r.late + w) == (r.replayed + r.late) + w;
  }

  /** Every interleaving keeps the invariant: retries stay within bounds, completion is signalled
      once, and the live connection carries what it should. */
  lemma {:induction false} EveryRunKeeps(r: RetryState, es: seq<Event>)
    requires Started(r)
    ensures Inv(Run(r, es))
  {
    if es != [] {
      EveryRunKeeps(r, es[..|es| - 1]);
      StepInv(Run(r, es[..|es| - 1]), es[|es| - 1]);
    }
  }

  // ---- What an acknowledged Write means --------------------------------------------------------

  /** All the caller has written so far, in order: the tee, and after completion what followed it. */
  function Stream(r: RetryState): Bytes {
    if r.done then r.replayed + r.late else r.tee
  }

  /** The live connection has lost nothing. */
  predicate Intact(r: RetryState) {
    r.conn.Some? && if r.done then !r.lossy else !r.conn.value.failed
  }

  predicate Has(s: Bytes, b: Bytes, off: nat) {
    off + |b| <= |s| && s[off..off + |b|] == b
  }

  /** A connection that lost nothing carries the stream, once and in order. */
  lemma IntactCarries(r: RetryState)
    requires Inv(r) && Intact(r)
    ensures r.conn.value.log == Stream(r)
  {
  }

  lemma StreamGrows(r: RetryState, e: Event)
    requires Inv(r)
    ensures Stream(r) <= Stream(Step(r, e).0)
  {
    match e
    case WriteStart(b, through) =>
      if r.waiting.None? && r.conn.Some? && r.done {
        var w := b[..Min(through, |b|)];
        assert r.replayed + (r.late + w) == (r.replayed + r.late) + w;
      }
    case WaitTimedOut =>
    case WaitEnded =>
    case ReadDone(ok, attempts) =>
      if !r.done {
        RetryLoopEffect(r, ok, attempts);
        CompletedIs(r, ok, attempts, RetryLoop(r, ok, attempts));
        SignalledStream(RetryLoop(r, ok, attempts).0);
      }
  }

  lemma SignalledStream(l: RetryState)
    ensures Stream(Signalled(l)) == l.tee
  {
    assert l.tee + [] == l.tee;
  }

  lemma {:induction false} StreamKeeps(r: RetryState, es: seq<Event>, i: nat, b: Bytes, off: nat)
    requires Started(r) && i <= |es| && Has(Stream(Run(r, es[..i])), b, off)
    ensures Has(Stream(Run(r, es)), b, off)
    decreases |es|
  {
    if i == |es| {
      assert es[..i] == es;
    } else {
      var init := es[..|es| - 1];
      assert init[..i] == es[..i];
      StreamKeeps(r, init, i, b, off);
      EveryRunKeeps(r, init);
      StreamGrows(Run(r, init), es[|es| - 1]);
    }
  }

  lemma EndsWith(r: RetryState, b: Bytes, through: nat)
    requires r.conn.Some? && through >= |b|
    ensures var s := WriteStarted(r, b, through).0;
            Stream(s) == Stream(r) + b && Has(Stream(s), b, |Stream(r)|)
  {
    assert b[..|b|] == b;
    assert r.replayed + (r.late + b) == (r.replayed + r.late) + b;
    assert (Stream(r) + b)[|Stream(r)|..|Stream(r)| + |b|] == b;
  }

  /** An acknowledgement given at once: the bytes come next in the stream, and in a connection that lost nothing. */
  lemma PromptAck(r: RetryState, b: Bytes, through: nat)
    requires Inv(r) && r.waiting.None?
    ensures var (s, o) := Step(r, WriteStart(b, through));
            o.Acked? ==>
              && o.b == b && o.off == |Stream(r)| && Has(Stream(s), b, o.off)
              && (Intact(s) <==> Intact(r)) && (Intact(s) ==> Has(s.conn.value.log, b, o.off))
  {
    var (s, o) := Step(r, WriteStart(b, through));
    if o.Acked? {
      EndsWith(r, b, through);
      StepInv(r, WriteStart(b, through));
      if Intact(s) {
        IntactCarries(s);
      }
    }
  }

  /** An acknowledgement given after waiting is true exactly when a retry took place. */
  lemma WaitedAck(r: RetryState)
    requires Inv(r)
    ensures var (s, o) := Step(r, WaitEnded);
            o.Acked? ==>
              && s.conn.Some? && Has(Stream(s), o.b, o.off)
              && (Has(s.conn.value.log, o.b, o.off) <==> r.retryCount > 0)
              && (Intact(s) <==> r.retryCount > 0)
  {
    var (s, o) := Step(r, WaitEnded);
    if o.Acked? {
      var p := r.waiting.value;
      assert r.replayed + r.late == r.replayed;
      assert r.replayed[p.off..] == r.replayed[p.off..p.off + |p.b|];
      if r.retryCount > 0 {
        IntactCarries(s);
      } else {
        assert |s.conn.value.log| < p.off + |p.b|;
      }
    }
  }

  lemma LoopTurn(s: RetryState, ok: bool, attempts: nat -> Attempt, t: (RetryState, bool))
    requires !RetryStops(s, ok) && t == Turned(s, attempts)
    ensures RetryLoop(s, ok, attempts) == RetryLoop(t.0, t.1, attempts)
  {
  }

  // ---- When the bytes arrive, in terms of what happened ------------------------------------------

  /** Whether the first Read to end brought data, if one has ended. */
  function FirstRead(es: seq<Event>): Option<bool> {
    if es == [] then None
    else
      var f, e := FirstRead(es[..|es| - 1]), es[|es| - 1];
      if f.Some? then f else if e.ReadDone? then Some(e.ok) else None
  }

  /** A retry takes place: the first Read failed, and retries are enabled. */
  predicate Retries(r: RetryState, es: seq<Event>) {
    r.canRetry && r.maxRetries > 0 && FirstRead(es) == Some(false)
  }

  /** Every Write got all its bytes through. */
  predicate WritesThrough(es: seq<Event>) {
    es == [] || (WritesThrough(es[..|es| - 1]) && var e := es[|es| - 1]; e.WriteStart? ==> e.through >= |e.b|)
  }

  predicate SameSettings(r: RetryState, s: RetryState) {
    s.maxRetries == r.maxRetries && s.canRetry == r.canRetry && s.multidial == r.multidial && s.dialers == r.dialers
  }

  lemma LoopRuns(s: RetryState, ok: bool, attempts: nat -> Attempt)
    requires NamesDialer(s) && s.retryCount == 0 && s.conn.Some?
    ensures RetryLoop(s, ok, attempts).0.retryCount > 0 <==> s.canRetry && s.maxRetries > 0 && !ok
    ensures RetryLoop(s, ok, attempts).0.retryCount == 0 ==> RetryLoop(s, ok, attempts) == (s, ok)
  {
    if !RetryStops(s, ok) {
      TurnedEffect(s, attempts);
      var t := Turned(s, attempts);
      RetryLoopEffect(t.0, t.1, attempts);
    }
  }

  lemma StepRetries(s: RetryState, e: Event)
    requires Inv(s)
    ensures var t := Step(s, e).0;
            && SameSettings(s, t)
            && (t.done <==> s.done || e.ReadDone?)
            && (!t.done ==> t.nextDialer == s.nextDialer)
            && (s.done ==> t.retryCount == s.retryCount)
            && (!s.done && t.done ==> (t.retryCount > 0 <==> s.canRetry && s.maxRetries > 0 && !e.ok))
  {
    if e.ReadDone? && !s.done {
      LoopRuns(s, e.ok, e.attempts);
      RetryLoopEffect(s, e.ok, e.attempts);
    }
  }

  /** A retry has taken place exactly when the first Read failed and retries are enabled. */
  lemma {:induction false} RetriedIff(r: RetryState, es: seq<Event>)
    requires Started(r)
    ensures var s := Run(r, es);
            && SameSettings(r, s) && (s.done <==> FirstRead(es).Some?) && (!s.done ==> s.nextDialer == r.nextDialer)
            && (s.done ==> (s.retryCount > 0 <==> Retries(r, es)))
  {
    if es != [] {
      RetriedIff(r, es[..|es| - 1]);
      EveryRunKeeps(r, es[..|es| - 1]);
      StepRetries(Run(r, es[..|es| - 1]), es[|es| - 1]);
    }
  }

  /** A waited-for acknowledgement is true if and only if the first Read failed and retries are enabled. */
  lemma WaitedAckIff(r: RetryState, es: seq<Event>)
    requires Started(r) && Step(Run(r, es), WaitEnded).1.Acked?
    ensures var (s, o) := Step(Run(r, es), WaitEnded);
            s.conn.Some? && (Has(s.conn.value.log, o.b, o.off) <==> Retries(r, es))
  {
    EveryRunKeeps(r, es);
    WaitedAck(Run(r, es));
    RetriedIff(r, es);
  }

  predicate Lost(s: RetryState, through: bool) {
    s.conn.Some? && s.conn.value.failed == !through && (|s.conn.value.log| == |s.tee| <==> through)
  }

  lemma EarlyWriteLost(s: RetryState, b: Bytes, through: nat, sofar: bool)
    requires Inv(s) && !s.done && s.waiting.None? && Lost(s, sofar)
    ensures Lost(WriteStarted(s, b, through).0, sofar && through >= |b|)
  {
  }

  /** Until a Read has ended, the connection has lost nothing exactly when every Write got through. */
  lemma {:induction false} LostIff(r: RetryState, es: seq<Event>)
    requires Started(r) && FirstRead(es).None?
    ensures Lost(Run(r, es), WritesThrough(es))
    ensures Run(r, es).waiting.Some? ==> !WritesThrough(es)
  {
    if es != [] {
      var init, e := es[..|es| - 1], es[|es| - 1];
      LostIff(r, init);
      EveryRunKeeps(r, init);
      RetriedIff(r, init);
      if e.WriteStart? && Run(r, init).waiting.None? {
        EarlyWriteLost(Run(r, init), e.b, e.through, WritesThrough(init));
      }
    }
  }

  // ---- What the last attempt leaves ----------------------------------------------------------------

  /** The connection after a replay holds as much of the tee as got through. */
  predicate Took(s: RetryState, tee: Bytes, through: nat) {
    s.conn.Some? ==> s.conn.value.log == tee[..Min(through, |tee|)] && s.conn.value.failed == (through < |tee|)
  }

  lemma ReplayTook(d: RetryState, a: Attempt)
    requires d.conn.Some? ==> d.conn.value.log == [] && !d.conn.value.failed
    ensures var (l, ok) := ReplayedOn(d, a);
            && Took(l, d.tee, a.through)
            && (ok <==> l.conn.Some? && a.through >= |d.tee| && a.readOk)
            && (l.conn.Some? <==> d.conn.Some?)
  {
    assert [] + d.tee == d.tee && d.tee[..|d.tee|] == d.tee;
    assert a.through < |d.tee| ==> [] + d.tee[..a.through] == d.tee[..a.through];
  }

  lemma TurnedTook(r: RetryState, attempts: nat -> Attempt)
    requires NamesDialer(r)
    ensures var t := Turned(r, attempts);
            var a := attempts(t.0.retryCount);
            && Took(t.0, r.tee, a.through)
            && (t.1 <==> t.0.conn.Some? && Works(a, |r.tee|))
  {
    var n := r.(retryCount := r.retryCount + 1);
    RetriedTook(n, attempts(n.retryCount));
    TurnedIs(r, attempts, Retried(n, attempts(n.retryCount)));
  }

  lemma TurnedIs(r: RetryState, attempts: nat -> Attempt, t: (RetryState, bool))
    requires var n := r.(retryCount := r.retryCount + 1); t == Retried(n, attempts(n.retryCount))
    ensures Turned(r, attempts) == t && t.0.retryCount == r.retryCount + 1
  {
  }

  lemma RetriedTook(n: RetryState, a: Attempt)
    requires NamesDialer(n)
    ensures var (l, ok) := Retried(n, a);
            Took(l, n.tee, a.through) && (ok <==> l.conn.Some? && Works(a, |n.tee|))
  {
    DialedEffect(n, a.connects);
    ReplayTook(Dialed(n, a.connects), a);
  }

  /** After at least one retry the connection is the last attempt's, and the flag says whether all of it worked. */
  predicate LastTook(l: (RetryState, bool), tee: Bytes, a: Attempt) {
    && Took(l.0, tee, a.through)
    && (l.1 <==> l.0.conn.Some? && Works(a, |tee|))
  }

  lemma {:induction false} LoopTook(s: RetryState, ok: bool, attempts: nat -> Attempt)
    requires NamesDialer(s) && s.retryCount <= s.maxRetries
    requires s.retryCount > 0 ==> Replayed(s, s) && LastTook((s, ok), s.tee, attempts(s.retryCount))
    ensures var l := RetryLoop(s, ok, attempts);
            l.0.retryCount > 0 ==> LastTook(l, s.tee, attempts(l.0.retryCount))
    decreases s.maxRetries - s.retryCount
  {
    if !RetryStops(s, ok) {
      TurnedEffect(s, attempts);
      TurnedTook(s, attempts);
      var t := Turned(s, attempts);
      LoopTook(t.0, t.1, attempts);
    }
  }

  /** The dialer that the `k`-th attempt connects through, starting from dialer `next`, or as many as there are. */
  function Reached(r: RetryState, k: nat, next: nat, connects: nat -> bool): nat {
    if r.multidial then FirstConnecting(connects, if next >= r.dialers && k < r.maxRetries then 0 else next, r.dialers)
    else if connects(0) then 0 else r.dialers
  }

  /** The dialer to start from after that. */
  function Following(r: RetryState, j: nat, next: nat): nat {
    if !r.multidial then next else if j < r.dialers then j + 1 else j
  }

  predicate Works(a: Attempt, n: nat) {
    a.through >= n && a.readOk
  }

  /** The number of the last attempt for a tee of `n` bytes, and whether it connects: the first from the `k`-th on
      that connects and works, or the maximum. Told from the settings and the attempts. */
  function LastTry(r: RetryState, k: nat, next: nat, n: nat, attempts: nat -> Attempt): (nat, bool)
    decreases r.maxRetries - k
  {
    var j := Reached(r, k, next, attempts(k).connects);
    if k >= r.maxRetries || (j < r.dialers && Works(attempts(k), n)) then (k, j < r.dialers)
    else LastTry(r, k + 1, Following(r, j, next), n, attempts)
  }

  lemma DialedReaches(r: RetryState, s: RetryState, connects: nat -> bool)
    requires NamesDialer(s) && SameSettings(r, s)
    ensures var d, j := Dialed(s, connects), Reached(r, s.retryCount, s.nextDialer, connects);
            (d.conn.Some? <==> j < r.dialers) && d.nextDialer == Following(r, j, s.nextDialer)
  {
  }

  lemma TurnedReaches(r: RetryState, s: RetryState, attempts: nat -> Attempt)
    requires NamesDialer(s) && SameSettings(r, s)
    ensures var t, k := Turned(s, attempts), s.retryCount + 1;
            var j := Reached(r, k, s.nextDialer, attempts(k).connects);
            (t.0.conn.Some? <==> j < r.dialers) && t.0.nextDialer == Following(r, j, s.nextDialer)
  {
    var n := s.(retryCount := s.retryCount + 1);
    var a := attempts(n.retryCount);
    DialedReaches(r, n, a.connects);
    DialedEffect(n, a.connects);
    ReplayEffect(Dialed(n, a.connects), a);
  }

  /** What the retry loop ends with can be told from the attempts: which is the last, and whether it connects. */
  lemma {:induction false} LoopEndsAt(r: RetryState, s: RetryState, ok: bool, attempts: nat -> Attempt)
    requires NamesDialer(s) && SameSettings(r, s) && !RetryStops(s, ok)
    ensures var l := RetryLoop(s, ok, attempts).0;
            (l.retryCount, l.conn.Some?) == LastTry(r, s.retryCount + 1, s.nextDialer, |s.tee|, attempts)
    decreases s.maxRetries - s.retryCount
  {
    var t := Turned(s, attempts);
    TurnedEffect(s, attempts);
    TurnedTook(s, attempts);
    TurnedReaches(r, s, attempts);
    LoopTurn(s, ok, attempts, t);
    if !RetryStops(t.0, t.1) {
      LoopEndsAt(r, t.0, t.1, attempts);
    }
  }

  // ---- Completion ------------------------------------------------------------------------------------

  /** `es` up to a Read that is the first to end. */
  predicate Completes(es: seq<Event>, e: Event) {
    FirstRead(es).None? && e.ReadDone?
  }

  lemma HasPrefix(tee: Bytes, b: Bytes, off: nat, n: nat)
    requires Has(tee, b, off) && n <= |tee|
    ensures Has(tee[..n], b, off) <==> off + |b| <= n
  {
    if off + |b| <= n {
      assert tee[..n][off..off + |b|] == tee[off..off + |b|];
    }
  }

  lemma FirstReadNext(es: seq<Event>, e: Event)
    ensures FirstRead(es + [e]) == if FirstRead(es).Some? then FirstRead(es) else if e.ReadDone? then Some(e.ok) else None
  {
    assert (es + [e])[..|es + [e]| - 1] == es;
  }

  lemma RunNext(r: RetryState, es: seq<Event>, e: Event)
    ensures Run(r, es + [e]) == Step(Run(r, es), e).0
  {
    assert (es + [e])[..|es + [e]| - 1] == es;
  }

  /** The last attempt of the retry that `e` completes, and whether it connects. */
  function LastOf(r: RetryState, es: seq<Event>, e: Event): (nat, bool)
    requires e.ReadDone?
  {
    LastTry(r, 1, r.nextDialer, |Run(r, es).tee|, e.attempts)
  }

  /** The connection of the last attempt `last`, with as much of the tee as it took. */
  predicate Left(f: RetryState, tee: Bytes, last: (nat, bool), attempts: nat -> Attempt) {
    && f.retryCount == last.0 && (f.conn.Some? <==> last.1)
    && Took(f, tee, attempts(last.0).through)
  }

  lemma LoopLeaves(r: RetryState, s: RetryState, attempts: nat -> Attempt, l: (RetryState, bool))
    requires NamesDialer(s) && s.retryCount == 0 && s.conn.Some? && SameSettings(r, s)
    requires s.canRetry && s.maxRetries > 0 && l == RetryLoop(s, false, attempts)
    ensures var last := LastTry(r, 1, s.nextDialer, |s.tee|, attempts);
            Left(l.0, s.tee, last, attempts) && (l.1 <==> last.1 && Works(attempts(last.0), |s.tee|))
  {
    LoopRuns(s, false, attempts);
    LoopTook(s, false, attempts);
    LoopEndsAt(r, s, false, attempts);
  }

  lemma SignalledLeaves(s: RetryState, e: Event, l: (RetryState, bool), tee: Bytes, last: (nat, bool))
    requires !s.done && e.ReadDone? && l == RetryLoop(s, e.ok, e.attempts) && Left(l.0, tee, last, e.attempts)
    ensures var f := Step(s, e).0;
            Left(f, tee, last, e.attempts) && f.done && (f.conn.Some? ==> f.lossy == f.conn.value.failed)
    ensures Step(s, e).1 == Received <==> last.1 && l.1
  {
    CompletedIs(s, e.ok, e.attempts, l);
  }

  /** Completion with a retry leaves the last attempt's connection, and Read reports what that attempt did. */
  lemma RetryEnds(r: RetryState, es: seq<Event>, e: Event)
    requires Started(r) && Completes(es, e) && Retries(r, es + [e])
    ensures var f, last := Run(r, es + [e]), LastOf(r, es, e);
            && Left(f, Run(r, es).tee, last, e.attempts) && f.done && (f.conn.Some? ==> f.lossy == f.conn.value.failed)
            && (Step(Run(r, es), e).1 == Received <==> last.1 && Works(e.attempts(last.0), |Run(r, es).tee|))
  {
    var s := Run(r, es);
    FirstReadNext(es, e);
    RunNext(r, es, e);
    EveryRunKeeps(r, es);
    RetriedIff(r, es);
    var l := RetryLoop(s, e.ok, e.attempts);
    LoopLeaves(r, s, e.attempts, l);
    SignalledLeaves(s, e, l, s.tee, LastOf(r, es, e));
  }

  /** Completion with a retry: bytes of the stream are in the connection kept if and only if the last attempt
      connects and gets them through. */
  lemma RetryDelivers(r: RetryState, es: seq<Event>, e: Event, b: Bytes, off: nat)
    requires Started(r) && Completes(es, e) && Retries(r, es + [e]) && Has(Run(r, es).tee, b, off)
    ensures var f, last := Run(r, es + [e]), LastOf(r, es, e);
            f.conn.Some? && Has(f.conn.value.log, b, off) <==> last.1 && e.attempts(last.0).through >= off + |b|
  {
    RetryEnds(r, es, e);
    var tee, n := Run(r, es).tee, e.attempts(LastOf(r, es, e).0).through;
    HasPrefix(tee, b, off, Min(n, |tee|));
  }

  /** Completion without a retry keeps the connection as it was. */
  lemma NoRetryKeeps(r: RetryState, es: seq<Event>, e: Event)
    requires Started(r) && Completes(es, e) && !Retries(r, es + [e])
    ensures var f := Run(r, es + [e]);
            f.conn == Run(r, es).conn && f.done && f.conn.Some? && f.lossy == f.conn.value.failed
    ensures Step(Run(r, es), e).1 == Received <==> e.ok
  {
    FirstReadNext(es, e);
    RunNext(r, es, e);
    EveryRunKeeps(r, es);
    RetriedIff(r, es);
    LoopRuns(Run(r, es), e.ok, e.attempts);
  }

  /** The connection kept carries the whole stream if and only if: the last attempt of a retry connects and gets
      it all through, or without a retry every Write had got through. */
  lemma IntactIff(r: RetryState, es: seq<Event>, e: Event)
    requires Started(r) && Completes(es, e)
    ensures var last := LastOf(r, es, e);
            Intact(Run(r, es + [e])) <==>
            if Retries(r, es + [e]) then last.1 && e.attempts(last.0).through >= |Run(r, es).tee| else WritesThrough(es)
  {
    if Retries(r, es + [e]) {
      RetryEnds(r, es, e);
    } else {
      NoRetryKeeps(r, es, e);
      LostIff(r, es);
    }
  }

  /** A completing Read without error: the connection carries the whole stream, if and only if it took a retry or
      every Write before had got through. */
  lemma CleanReadIff(r: RetryState, es: seq<Event>, e: Event)
    requires Started(r) && Completes(es, e) && Step(Run(r, es), e).1 == Received
    ensures Intact(Run(r, es + [e])) <==> (e.ok ==> WritesThrough(es))
  {
    IntactIff(r, es, e);
    FirstReadNext(es, e);
    if Retries(r, es + [e]) {
      RetryEnds(r, es, e);
    } else {
      NoRetryKeeps(r, es, e);
    }
  }

  /** After completion the connection is final and its log only grows. */
  lemma FinalConnStays(r: RetryState, e: Event)
    requires Inv(r) && r.done && r.conn.Some?
    ensures var s := Step(r, e).0;
            s.done && s.conn.Some? && r.conn.value.log <= s.conn.value.log && DialerId(s) == DialerId(r)
            && s.retryCount == r.retryCount && s.lossy == r.lossy
  {
  }

  lemma {:induction false} IntactStays(r: RetryState, es: seq<Event>, i: nat)
    requires Started(r) && i <= |es| && Run(r, es[..i]).done && Intact(Run(r, es[..i]))
    ensures Run(r, es).done && Intact(Run(r, es))
    decreases |es|
  {
    if i == |es| {
      assert es[..i] == es;
    } else {
      var init := es[..|es| - 1];
      assert init[..i] == es[..i];
      IntactStays(r, init, i);
      EveryRunKeeps(r, init);
      FinalConnStays(Run(r, init), es[|es| - 1]);
    }
  }

  lemma AckedNow(s: RetryState, e: Event)
    requires Inv(s) && Step(s, e).1.Acked?
    ensures var (t, o) := Step(s, e); Has(Stream(t), o.b, o.off)
  {
    if e.WaitEnded? {
      WaitedAck(s);
    } else {
      PromptAck(s, e.b, e.through);
    }
  }

  lemma AckedThere(r: RetryState, es: seq<Event>, e: Event, all: seq<Event>)
    requires Started(r) && Step(Run(r, es), e).1.Acked? && all == es + [e]
    ensures var o := Step(Run(r, es), e).1; Has(Stream(Run(r, all)), o.b, o.off)
  {
    EveryRunKeeps(r, es);
    AckedNow(Run(r, es), e);
    RunNext(r, es, e);
  }

  lemma AckedInStream(r: RetryState, es: seq<Event>, i: nat)
    requires Started(r) && i < |es| && Step(Run(r, es[..i]), es[i]).1.Acked?
    ensures var o := Step(Run(r, es[..i]), es[i]).1; Has(Stream(Run(r, es)), o.b, o.off)
  {
    var o := Step(Run(r, es[..i]), es[i]).1;
    AckedThere(r, es[..i], es[i], es[..i + 1]);
    StreamKeeps(r, es, i + 1, o.b, o.off);
  }

  lemma CleanStays(r: RetryState, es: seq<Event>, c: nat)
    requires Started(r) && c < |es| && Completes(es[..c], es[c]) && Step(Run(r, es[..c]), es[c]).1 == Received
    requires es[c].ok ==> WritesThrough(es[..c])
    ensures Intact(Run(r, es))
  {
    CleanReadIff(r, es[..c], es[c]);
    assert es[..c] + [es[c]] == es[..c + 1];
    FirstReadNext(es[..c], es[c]);
    RetriedIff(r, es[..c + 1]);
    IntactStays(r, es, c + 1);
  }

  /** Once a Read has completed without error, with a retry or after Writes that all got through, every Write
      that reports no error, before or after, has its bytes in the final connection's log, at their place in the
      stream and for good. */
  lemma AckedIsDelivered(r: RetryState, es: seq<Event>, i: nat, c: nat)
    requires Started(r) && i < |es| && c < |es|
    requires Completes(es[..c], es[c]) && Step(Run(r, es[..c]), es[c]).1 == Received
    requires es[c].ok ==> WritesThrough(es[..c])
    requires Step(Run(r, es[..i]), es[i]).1.Acked?
    ensures var o := Step(Run(r, es[..i]), es[i]).1;
            Run(r, es).conn.Some? && Has(Run(r, es).conn.value.log, o.b, o.off)
  {
    AckedInStream(r, es, i);
    CleanStays(r, es, c);
    EveryRunKeeps(r, es);
    IntactCarries(Run(r, es));
  }

  lemma {:induction false} LogKeeps(r: RetryState, es: seq<Event>, i: nat, b: Bytes, p: nat)
    requires Started(r) && i <= |es| && FirstRead(es).None?
    requires Run(r, es[..i]).conn.Some? && Has(Run(r, es[..i]).conn.value.log, b, p)
    ensures Run(r, es).conn.Some? && Has(Run(r, es).conn.value.log, b, p)
    decreases |es|
  {
    if i == |es| {
      assert es[..i] == es;
    } else {
      var init := es[..|es| - 1];
      assert init[..i] == es[..i];
      LogKeeps(r, init, i, b, p);
      RetriedIff(r, init);
      WriteKeeps(Run(r, init), es[|es| - 1], b, p);
    }
  }

  lemma WriteKeeps(s: RetryState, e: Event, b: Bytes, p: nat)
    requires !s.done && !e.ReadDone? && s.conn.Some? && Has(s.conn.value.log, b, p)
    ensures Step(s, e).0.conn.Some? && Has(Step(s, e).0.conn.value.log, b, p)
  {
    var log := s.conn.value.log;
    assert forall x: Bytes :: (log + x)[p..p + |b|] == log[p..p + |b|];
  }

  /** Without a retry, bytes acknowledged at once stay where the connection took them, which is their place in the
      stream if and only if every Write before had got through. */
  lemma PromptPlaceIff(r: RetryState, es: seq<Event>, e: Event, i: nat)
    requires Started(r) && i < |es| && Completes(es, e) && !Retries(r, es + [e])
    requires Step(Run(r, es[..i]), es[i]).1.Acked?
    ensures var s, o := Run(r, es[..i]), Step(Run(r, es[..i]), es[i]).1;
            var f := Run(r, es + [e]);
            && s.conn.Some? && f.conn.Some? && Has(f.conn.value.log, o.b, |s.conn.value.log|)
            && (|s.conn.value.log| == o.off <==> WritesThrough(es[..i]))
  {
    var s := Run(r, es[..i]);
    FirstReadPrefix(es, i);
    RetriedIff(r, es[..i]);
    LostIff(r, es[..i]);
    assert es[..i] + [es[i]] == es[..i + 1];
    RunNext(r, es[..i], es[i]);
    assert Has(s.conn.value.log + es[i].b, es[i].b, |s.conn.value.log|);
    LogKeeps(r, es, i + 1, es[i].b, |s.conn.value.log|);
    NoRetryKeeps(r, es, e);
  }

  lemma {:induction false} FirstReadPrefix(es: seq<Event>, i: nat)
    requires FirstRead(es).None? && i <= |es|
    ensures FirstRead(es[..i]).None?
  {
    if i < |es| {
      FirstReadPrefix(es[..|es| - 1], i);
      assert es[..|es| - 1][..i] == es[..i];
    } else {
      assert es[..i] == es;
    }
  }

  // ---- Where it goes wrong ---------------------------------------------------------------------------

  function Plain(canRetry: bool, maxRetries: nat): RetryState {
    RetryState(Some(Conn([], false, 0)), [], 0, 0, false, false, maxRetries, canRetry, false, 1, None, 0, [], false, [])
  }

  lemma NoneThrough(b: Bytes)
    requires b != []
    ensures Wrote(Conn([], false, 0), b, 0) == Conn([], true, 0)
  {
  }

  /** A Write whose only attempt failed is acknowledged once a Read has succeeded, although none of its bytes
      reached the connection, whether retries are enabled or not. */
  lemma AckedButLost(canRetry: bool, attempts: nat -> Attempt)
    ensures var r, es := Plain(canRetry, 3), [WriteStart([7], 0), ReadDone(true, attempts)];
            && Started(r) && Step(Run(r, es), WaitEnded).1 == Acked([7], 0)
            && Step(Run(r, es), WaitEnded).0.conn == Some(Conn([], true, 0))
  {
    var r := Plain(canRetry, 3);
    var w, d := WriteStart([7], 0), ReadDone(true, attempts);
    var none: seq<Event> := [];
    assert none + [w] == [w] && [w] + [d] == [w, d];
    RunNext(r, none, w);
    RunNext(r, [w], d);
    NoneThrough([7]);
    assert [] + [7 as bv8] == [7 as bv8];
    assert Run(r, [w]) == r.(conn := Some(Conn([], true, 0)), tee := [7], waiting := Some(Pending([7], 0)));
  }

  /** A Write acknowledged at once is lost when the only retry connects and takes none of the tee, although the
      first connection failed as it should: the completing Read reports the error. */
  lemma AckedThenLost()
    ensures var at := (n: nat) => Attempt((d: nat) => true, 0, false);
            var r, w, d := Plain(true, 1), WriteStart([7], 1), ReadDone(false, at);
            && Started(r) && Step(r, w).1 == Acked([7], 0)
            && Step(Run(r, [w]), d).1 == Failed
            && Run(r, [w, d]).conn == Some(Conn([], true, 0))
  {
    var at := (n: nat) => Attempt((d: nat) => true, 0, false);
    var r, w, d := Plain(true, 1), WriteStart([7], 1), ReadDone(false, at);
    var none: seq<Event> := [];
    assert none + [w] == [w] && [w] + [d] == [w, d];
    RunNext(r, none, w);
    RunNext(r, [w], d);
    NoneThrough([7]);
    assert [] + [7 as bv8] == [7 as bv8];
    var s := r.(conn := Some(Conn([7], false, 0)), tee := [7]);
    assert Run(r, [w]) == s;
    var t := Turned(s, at);
    assert t == (s.(conn := Some(Conn([], true, 0)), retryCount := 1, retryWriteErr := true), false);
    LoopTurn(s, false, at, t);
  }
}
