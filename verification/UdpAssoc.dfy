/**
 The association table: one muxer per proxy and source, whatever the destination. A step is one
 region under the table lock, one dial, or one callback of a muxer; reset is not among them.
 */
module UdpAssoc {
  const UNKNOWN_UID := "-1"

  /** A muxer and the packet connection it owns; `pc` indexes the dialled connections. */
  datatype Muxer = Muxer(pid: string, uid: string, src: nat, pc: nat, stopped: bool, dissociated: bool)

  /** An associate call that missed: dialling, or holding what it dialled. */
  datatype Call = Dialling(pid: string, uid: string, src: nat) | Dialled(pid: string, uid: string, src: nat, pc: nat)

  datatype Table = Table(
    t: map<(string, nat), nat>,
    muxers: seq<Muxer>,
    closed: seq<bool>,
    calls: map<nat, Call>)

  const START := Table(map[], [], [], map[])

  datatype Outcome = Quiet | Got(muxer: nat) | Refused | Mismatch

  datatype Event =
    | Begin(call: nat, pid: string, uid: string, src: nat)  // first look-up
    | DialFails(call: nat)
    | DialWorks(call: nat)
    | Finish(call: nat)                                      // second look-up, after dialling
    | StopMuxer(m: nat)                                      // the muxer closes its connection
    | Dissociate(m: nat)                                     // ... and later calls back

  /** The checks on the muxer found or made, as written: the second conjunct of the uid test only
      matters when both uids are unknown, and then the first fails. */
  function Checked(x: Muxer, m: nat, pid: string, uid: string): Outcome {
    if x.pid != pid then Mismatch
    else if x.uid != uid && (uid != UNKNOWN_UID || x.uid != UNKNOWN_UID) then Mismatch
    else Got(m)
  }

  function Found(s: Table, m: nat, pid: string, uid: string): Outcome {
    if m < |s.muxers| then Checked(s.muxers[m], m, pid, uid) else Refused
  }

  function Finished(s: Table, c: Call): (Table, Outcome)
    requires c.Dialled?
  {
    var k := (c.pid, c.src);
    if k in s.t then
      (if c.pc < |s.closed| then s.(closed := s.closed[c.pc := true]) else s, Found(s, s.t[k], c.pid, c.uid))
    else
      var x := Muxer(c.pid, c.uid, c.src, c.pc, false, false);
      (s.(muxers := s.muxers + [x], t := s.t[k := |s.muxers|]), Checked(x, |s.muxers|, c.pid, c.uid))
  }

  function Step(s: Table, e: Event): (Table, Outcome) {
    match e
    case Begin(call, pid, uid, src) =>
      if call in s.calls then (s, Quiet)
      else if (pid, src) in s.t then (s, Found(s, s.t[(pid, src)], pid, uid))
      else (s.(calls := s.calls[call := Dialling(pid, uid, src)]), Quiet)
    case DialFails(call) =>
      if call !in s.calls || !s.calls[call].Dialling? then (s, Quiet)
      else (s.(calls := s.calls - {call}), Refused)
    case DialWorks(call) =>
      if call !in s.calls || !s.calls[call].Dialling? then (s, Quiet)
      else
        var c := s.calls[call];
        (s.(closed := s.closed + [false], calls := s.calls[call := Dialled(c.pid, c.uid, c.src, |s.closed|)]), Quiet)
    case Finish(call) =>
      if call !in s.calls || !s.calls[call].Dialled? then (s, Quiet)
      else
        var c := s.calls[call];
        Finished(s.(calls := s.calls - {call}), c)
    case StopMuxer(m) =>
      if m >= |s.muxers| || s.muxers[m].stopped || s.muxers[m].pc >= |s.closed| then (s, Quiet)
      else (s.(muxers := s.muxers[m := s.muxers[m].(stopped := true)], closed := s.closed[s.muxers[m].pc := true]), Quiet)
    case Dissociate(m) =>
      if m >= |s.muxers| || !s.muxers[m].stopped || s.muxers[m].dissociated then (s, Quiet)
      else
        var x := s.muxers[m];
        (s.(muxers := s.muxers[m := x.(dissociated := true)], t := s.t - {(x.pid, x.src)}), Quiet)
  }

  function Run(es: seq<Event>): Table {
    if es == [] then START else Step(Run(es[..|es| - 1]), es[|es| - 1]).0
  }

  // ---- Invariants -------------------------------------------------------------------------------

  /** The table holds exactly the muxers that have not called back, each under its own key. */
  ghost predicate Tabled(t: map<(string, nat), nat>, muxers: seq<Muxer>) {
    && (forall k :: k in t ==> t[k] < |muxers| && !muxers[t[k]].dissociated && (muxers[t[k]].pid, muxers[t[k]].src) == k)
    && (forall m :: 0 <= m < |muxers| && !muxers[m].dissociated ==>
          (muxers[m].pid, muxers[m].src) in t && t[(muxers[m].pid, muxers[m].src)] == m)
  }

  /** Who may hold the open connection `p`: one call, or one muxer. */
  predicate CallHolds(calls: map<nat, Call>, call: nat, p: nat) {
    call in calls && calls[call].Dialled? && calls[call].pc == p
  }

  ghost predicate MuxersOwn(muxers: seq<Muxer>, closed: seq<bool>) {
    && (forall m :: 0 <= m < |muxers| ==>
          && muxers[m].pc < |closed| && (muxers[m].stopped ==> closed[muxers[m].pc])
          && (muxers[m].dissociated ==> muxers[m].stopped))
    && (forall m, n :: 0 <= m < n < |muxers| ==> muxers[m].pc != muxers[n].pc)
  }

  ghost predicate CallsOwn(calls: map<nat, Call>, closed: seq<bool>, muxers: seq<Muxer>) {
    forall c :: c in calls && calls[c].Dialled? ==>
      && calls[c].pc < |closed| && !closed[calls[c].pc]
      && (forall m :: 0 <= m < |muxers| ==> muxers[m].pc != calls[c].pc)
      && (forall d :: d in calls && calls[d].Dialled? && d != c ==> calls[d].pc != calls[c].pc)
  }

  /** No dialled connection leaks: it is closed, or a call or an unstopped muxer holds it. */
  ghost predicate NoLeak(s: Table) {
    forall p :: 0 <= p < |s.closed| && !s.closed[p] ==>
      || (exists c :: CallHolds(s.calls, c, p))
      || (exists m :: 0 <= m < |s.muxers| && s.muxers[m].pc == p && !s.muxers[m].stopped)
  }

  ghost predicate Inv(s: Table) {
    Tabled(s.t, s.muxers) && MuxersOwn(s.muxers, s.closed) && CallsOwn(s.calls, s.closed, s.muxers) && NoLeak(s)
  }

  lemma BeginInv(s: Table, call: nat, pid: string, uid: string, src: nat)
    requires Inv(s)
    ensures Inv(Step(s, Begin(call, pid, uid, src)).0)
  {
    if call !in s.calls {
      DiallingInv(s, call, Dialling(pid, uid, src));
    }
  }

  lemma DiallingInv(s: Table, call: nat, x: Call)
    requires Inv(s) && call !in s.calls && x.Dialling?
    ensures Inv(s.(calls := s.calls[call := x]))
  {
    var n := s.(calls := s.calls[call := x]);
    forall p | 0 <= p < |n.closed| && !n.closed[p] && !exists m :: 0 <= m < |n.muxers| && n.muxers[m].pc == p && !n.muxers[m].stopped
      ensures exists c :: CallHolds(n.calls, c, p)
    {
      var c :| CallHolds(s.calls, c, p);
      assert CallHolds(n.calls, c, p);
    }
  }

  lemma DialFailsInv(s: Table, call: nat)
    requires Inv(s)
    ensures Inv(Step(s, DialFails(call)).0)
  {
    var n := Step(s, DialFails(call)).0;
    forall p | 0 <= p < |n.closed| && !n.closed[p] && !exists m :: 0 <= m < |n.muxers| && n.muxers[m].pc == p && !n.muxers[m].stopped
      ensures exists c :: CallHolds(n.calls, c, p)
    {
      var c :| CallHolds(s.calls, c, p);
      assert CallHolds(n.calls, c, p);
    }
  }

  lemma DialWorksInv(s: Table, call: nat)
    requires Inv(s)
    ensures Inv(Step(s, DialWorks(call)).0)
  {
    var n := Step(s, DialWorks(call)).0;
    forall p | 0 <= p < |n.closed| && !n.closed[p] && !exists m :: 0 <= m < |n.muxers| && n.muxers[m].pc == p && !n.muxers[m].stopped
      ensures exists c :: CallHolds(n.calls, c, p)
    {
      if p == |s.closed| {
        assert CallHolds(n.calls, call, p);
      } else {
        var c :| CallHolds(s.calls, c, p);
        assert CallHolds(n.calls, c, p);
      }
    }
  }

  lemma FinishInv(s: Table, call: nat)
    requires Inv(s) && call in s.calls && s.calls[call].Dialled?
    ensures Inv(Step(s, Finish(call)).0)
  {
    FinishLeaksNone(s, call);
    var c := s.calls[call];
    var k := (c.pid, c.src);
    LetGo(s, call);
    if k !in s.t {
      var x := Muxer(c.pid, c.uid, c.src, c.pc, false, false);
      AddTabled(s.t, s.muxers, x);
      AddOwn(s, call, x);
    }
  }

  lemma AddTabled(t: map<(string, nat), nat>, muxers: seq<Muxer>, x: Muxer)
    requires Tabled(t, muxers) && (x.pid, x.src) !in t && !x.dissociated
    ensures Tabled(t[(x.pid, x.src) := |muxers|], muxers + [x])
  {
  }

  lemma AddOwn(s: Table, call: nat, x: Muxer)
    requires MuxersOwn(s.muxers, s.closed) && CallsOwn(s.calls, s.closed, s.muxers)
    requires CallHolds(s.calls, call, x.pc) && !x.stopped && !x.dissociated
    ensures MuxersOwn(s.muxers + [x], s.closed)
    ensures CallsOwn(s.calls - {call}, s.closed, s.muxers + [x])
  {
  }

  /** A call that drops the connection it dialled closes it, and nobody else held it. */
  lemma LetGo(s: Table, call: nat)
    requires MuxersOwn(s.muxers, s.closed) && CallsOwn(s.calls, s.closed, s.muxers)
    requires call in s.calls && s.calls[call].Dialled?
    ensures s.calls[call].pc < |s.closed|
    ensures var closed := s.closed[s.calls[call].pc := true];
            MuxersOwn(s.muxers, closed) && CallsOwn(s.calls - {call}, closed, s.muxers)
  {
  }

  lemma FinishLeaksNone(s: Table, call: nat)
    requires Inv(s) && call in s.calls && s.calls[call].Dialled?
    ensures NoLeak(Step(s, Finish(call)).0)
  {
    var c := s.calls[call];
    var n := Step(s, Finish(call)).0;
    forall p | 0 <= p < |n.closed| && !n.closed[p]
      ensures (exists d :: CallHolds(n.calls, d, p)) || (exists m :: 0 <= m < |n.muxers| && n.muxers[m].pc == p && !n.muxers[m].stopped)
    {
      if p == c.pc {
        assert n.muxers[|s.muxers|].pc == p && !n.muxers[|s.muxers|].stopped;
      } else if d :| CallHolds(s.calls, d, p) {
        assert CallHolds(n.calls, d, p);
      } else {
        var m :| 0 <= m < |s.muxers| && s.muxers[m].pc == p && !s.muxers[m].stopped;
        assert n.muxers[m] == s.muxers[m];
      }
    }
  }

  lemma StopInv(s: Table, m: nat)
    requires Inv(s)
    ensures Inv(Step(s, StopMuxer(m)).0)
  {
    StopLeaksNone(s, m);
    if m < |s.muxers| && s.muxers[m].pc < |s.closed| {
      StopTabled(s.t, s.muxers, m);
      StopOwn(s.muxers, s.closed, s.calls, m);
    }
  }

  lemma StopTabled(t: map<(string, nat), nat>, muxers: seq<Muxer>, m: nat)
    requires Tabled(t, muxers) && m < |muxers|
    ensures Tabled(t, muxers[m := muxers[m].(stopped := true)])
  {
  }

  lemma StopOwn(muxers: seq<Muxer>, closed: seq<bool>, calls: map<nat, Call>, m: nat)
    requires MuxersOwn(muxers, closed) && CallsOwn(calls, closed, muxers) && m < |muxers| && muxers[m].pc < |closed|
    ensures var n, shut := muxers[m := muxers[m].(stopped := true)], closed[muxers[m].pc := true];
            MuxersOwn(n, shut) && CallsOwn(calls, shut, n)
  {
  }

  lemma StopLeaksNone(s: Table, m: nat)
    requires Inv(s)
    ensures NoLeak(Step(s, StopMuxer(m)).0)
  {
    var n := Step(s, StopMuxer(m)).0;
    forall p | 0 <= p < |n.closed| && !n.closed[p]
      ensures (exists d :: CallHolds(n.calls, d, p)) || (exists i :: 0 <= i < |n.muxers| && n.muxers[i].pc == p && !n.muxers[i].stopped)
    {
      if d :| CallHolds(s.calls, d, p) {
        assert CallHolds(n.calls, d, p);
      } else {
        var i :| 0 <= i < |s.muxers| && s.muxers[i].pc == p && !s.muxers[i].stopped;
        assert n.muxers[i] == s.muxers[i];
      }
    }
  }

  lemma DissociateLeaksNone(s: Table, m: nat)
    requires Inv(s)
    ensures NoLeak(Step(s, Dissociate(m)).0)
  {
    var n := Step(s, Dissociate(m)).0;
    forall p | 0 <= p < |n.closed| && !n.closed[p]
      ensures (exists d :: CallHolds(n.calls, d, p)) || (exists i :: 0 <= i < |n.muxers| && n.muxers[i].pc == p && !n.muxers[i].stopped)
    {
      if d :| CallHolds(s.calls, d, p) {
        assert CallHolds(n.calls, d, p);
      } else {
        var i :| 0 <= i < |s.muxers| && s.muxers[i].pc == p && !s.muxers[i].stopped;
        assert n.muxers[i].pc == p && !n.muxers[i].stopped;
      }
    }
  }

  lemma DropTabled(t: map<(string, nat), nat>, muxers: seq<Muxer>, m: nat)
    requires Tabled(t, muxers) && m < |muxers| && !muxers[m].dissociated
    ensures Tabled(t - {(muxers[m].pid, muxers[m].src)}, muxers[m := muxers[m].(dissociated := true)])
  {
  }

  lemma DropOwn(muxers: seq<Muxer>, closed: seq<bool>, calls: map<nat, Call>, m: nat)
    requires MuxersOwn(muxers, closed) && CallsOwn(calls, closed, muxers) && m < |muxers| && muxers[m].stopped
    ensures MuxersOwn(muxers[m := muxers[m].(dissociated := true)], closed)
    ensures CallsOwn(calls, closed, muxers[m := muxers[m].(dissociated := true)])
  {
  }

  lemma DissociateInv(s: Table, m: nat)
    requires Inv(s)
    ensures Inv(Step(s, Dissociate(m)).0)
  {
    DissociateLeaksNone(s, m);
    if m < |s.muxers| && s.muxers[m].stopped && !s.muxers[m].dissociated {
      DropTabled(s.t, s.muxers, m);
      DropOwn(s.muxers, s.closed, s.calls, m);
    }
  }

  lemma StepInv(s: Table, e: Event)
    requires Inv(s)
    ensures Inv(Step(s, e).0)
  {
    match e
    case Begin(call, pid, uid, src) => BeginInv(s, call, pid, uid, src);
    case DialFails(call) => DialFailsInv(s, call);
    case DialWorks(call) => DialWorksInv(s, call);
    case Finish(call) => if call in s.calls && s.calls[call].Dialled? { FinishInv(s, call); }
    case StopMuxer(m) => StopInv(s, m);
    case Dissociate(m) => DissociateInv(s, m);
  }

  /** Every interleaving keeps the table, the muxers and the dialled connections consistent. */
  lemma {:induction false} EveryRunKeeps(es: seq<Event>)
    ensures Inv(Run(es))
  {
    if es != [] {
      EveryRunKeeps(es[..|es| - 1]);
      StepInv(Run(es[..|es| - 1]), es[|es| - 1]);
    }
  }

  // ---- Sharing ------------------------------------------------------------------------------------

  function KeyOf(s: Table, e: Event): (string, nat) {
    match e
    case Begin(_, pid, _, src) => (pid, src)
    case Finish(call) => if call in s.calls then (s.calls[call].pid, s.calls[call].src) else ("", 0)
    case _ => ("", 0)
  }

  function UidOf(s: Table, e: Event): string {
    match e
    case Begin(_, _, uid, _) => uid
    case Finish(call) => if call in s.calls then s.calls[call].uid else ""
    case _ => ""
  }

  lemma StepTabled(s: Table, e: Event)
    requires Inv(s)
    ensures Tabled(Step(s, e).0.t, Step(s, e).0.muxers)
  {
    StepInv(s, e);
  }

  lemma FoundIs(s: Table, m: nat, pid: string, uid: string)
    requires Found(s, m, pid, uid).Got?
    ensures m < |s.muxers| && Found(s, m, pid, uid) == Got(m) && s.muxers[m].pid == pid && s.muxers[m].uid == uid
  {
  }

  /** What a successful associate got, before asking whether it is still in use. */
  lemma GotIs(s: Table, e: Event)
    requires Step(s, e).1.Got?
    ensures var (n, o) := Step(s, e);
            && o.muxer < |n.muxers|
            && KeyOf(s, e) in n.t && n.t[KeyOf(s, e)] == o.muxer
            && n.muxers[o.muxer].pid == KeyOf(s, e).0 && n.muxers[o.muxer].uid == UidOf(s, e)
            && (KeyOf(s, e) in s.t ==> s.t[KeyOf(s, e)] == o.muxer)
  {
    match e
    case Begin(call, pid, uid, src) => FoundIs(s, s.t[(pid, src)], pid, uid);
    case Finish(call) =>
      var c := s.calls[call];
      if (c.pid, c.src) in s.t {
        FoundIs(s, s.t[(c.pid, c.src)], c.pid, c.uid);
      }
    case _ =>
  }

  /** A successful associate got the muxer tabled for its proxy and source, with the very pid and uid it asked for. */
  lemma GotIsTabled(s: Table, e: Event)
    requires Inv(s) && Step(s, e).1.Got?
    ensures var (n, o) := Step(s, e);
            && o.muxer < |n.muxers|
            && KeyOf(s, e) in n.t && n.t[KeyOf(s, e)] == o.muxer
            && n.muxers[o.muxer].pid == KeyOf(s, e).0 && n.muxers[o.muxer].uid == UidOf(s, e)
            && !n.muxers[o.muxer].dissociated
  {
    GotIs(s, e);
    StepTabled(s, e);
  }

  lemma StepStays(s: Table, e: Event, k: (string, nat), m: nat)
    requires Tabled(s.t, s.muxers) && k in s.t && s.t[k] == m && e != Dissociate(m)
    ensures k in Step(s, e).0.t && Step(s, e).0.t[k] == m
  {
  }

  lemma {:induction false} StaysTabled(es: seq<Event>, i: nat, k: (string, nat), m: nat)
    requires i <= |es| && k in Run(es[..i]).t && Run(es[..i]).t[k] == m
    requires forall j :: i <= j < |es| ==> es[j] != Dissociate(m)
    ensures k in Run(es).t && Run(es).t[k] == m
    decreases |es|
  {
    if i == |es| {
      assert es[..i] == es;
    } else {
      var init := es[..|es| - 1];
      assert init[..i] == es[..i];
      StaysTabled(init, i, k, m);
      EveryRunKeeps(init);
      StepStays(Run(init), es[|es| - 1], k, m);
    }
  }

  /** Calls for one proxy and source share one muxer, whatever their destinations and however they
      interleave, until that muxer has stopped and called back. */
  lemma CallsShareMuxer(es: seq<Event>, i: nat, j: nat)
    requires i < j < |es|
    requires Step(Run(es[..i]), es[i]).1.Got? && Step(Run(es[..j]), es[j]).1.Got?
    requires KeyOf(Run(es[..i]), es[i]) == KeyOf(Run(es[..j]), es[j])
    requires forall n :: i < n < j ==> es[n] != Dissociate(Step(Run(es[..i]), es[i]).1.muxer)
    ensures Step(Run(es[..i]), es[i]).1 == Step(Run(es[..j]), es[j]).1
  {
    var k, m := KeyOf(Run(es[..i]), es[i]), Step(Run(es[..i]), es[i]).1.muxer;
    GotThere(es[..i], es[i], es[..i + 1]);
    TabledBetween(es, i + 1, j, k, m);
    GotAgain(Run(es[..j]), es[j], k, m);
  }

  lemma TabledBetween(es: seq<Event>, i: nat, j: nat, k: (string, nat), m: nat)
    requires i <= j <= |es| && k in Run(es[..i]).t && Run(es[..i]).t[k] == m
    requires forall n :: i <= n < j ==> es[n] != Dissociate(m)
    ensures k in Run(es[..j]).t && Run(es[..j]).t[k] == m
  {
    assert es[..j][..i] == es[..i];
    StaysTabled(es[..j], i, k, m);
  }

  lemma GotThere(es: seq<Event>, e: Event, all: seq<Event>)
    requires Step(Run(es), e).1.Got? && all == es + [e]
    ensures var k := KeyOf(Run(es), e); k in Run(all).t && Run(all).t[k] == Step(Run(es), e).1.muxer
  {
    GotIs(Run(es), e);
    assert all[..|all| - 1] == es;
  }

  lemma GotAgain(s: Table, e: Event, k: (string, nat), m: nat)
    requires Step(s, e).1.Got? && KeyOf(s, e) == k && k in s.t && s.t[k] == m
    ensures Step(s, e).1 == Got(m)
  {
    GotIs(s, e);
  }

  /** A muxer's callback takes its own entry out of the table and no other. */
  lemma DissociateRemovesOwn(es: seq<Event>, m: nat)
    requires var s := Run(es); m < |s.muxers| && s.muxers[m].stopped && !s.muxers[m].dissociated
    ensures var s := Run(es);
            Step(s, Dissociate(m)).0.t == map k | k in s.t && s.t[k] != m :: s.t[k]
  {
    EveryRunKeeps(es);
  }
}
