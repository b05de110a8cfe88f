/** The barrier's lock-protected regions as they run. */
module BarrierCell {
  import opened Common
  import opened Barrier

  class Flights<K(==)> {
    const c: Config
    var m: map<K, nat>
    var entries: seq<Entry<K>>
    var works: seq<Option<Result>>
    var calls: map<nat, Call>
    var closed: bool
    var now: int

    ghost predicate Valid()
      reads this
    {
      SpacingInv(c, Now()) && CompletionInv(Now()) && FlightInv(c, Now())
    }

    ghost function Now(): State<K>
      reads this
    {
      State(m, entries, works, calls, closed, now)
    }

    constructor (ttl: int, neg: int)
      ensures Valid() && c == NewConfig(ttl, neg) && entries == [] && !closed
    {
      c := NewConfig(ttl, neg);
      m, entries, works, calls, closed, now := map[], [], [], map[], false, 0;
    }

    /** getLocked: drops the key's entry when it has outlived itself. */
    method GetLocked(k: K, t: int) returns (found: bool, id: nat)
      requires Tabled(Now())
      modifies this`m
      ensures found == Hit(c, old(Now()), k, t)
      ensures found ==> k in m && id == m[k] && m == old(m)
      ensures !found ==> m == if closed then old(m) else old(m) - {k}
    {
      id := 0;
      if closed || k !in m {
        return false, 0;
      }
      var e := entries[m[k]];
      var life := if e.done && e.result.failed then c.neg else c.ttl;
      if t > e.dob + life {
        m := m - {k};
        return false, 0;
      }
      return true, m[k];
    }

    method AddLocked(k: K, t: int) returns (id: nat)
      modifies this`m, this`entries, this`works
      ensures id == |old(entries)| && entries == old(entries) + [Entry(k, t, false, Result(0, false), 0)]
      ensures works == old(works) + [None]
      ensures m == if closed then old(m) else old(m)[k := id]
    {
      id := |entries|;
      entries := entries + [Entry(k, t, false, Result(0, false), 0)];
      works := works + [None];
      if !closed {
        m := m[k := id];
      }
    }

    /** Do up to the wait of a sharer or the work of an owner. */
    method Enter(call: nat, k: K, t: int)
      requires Valid() && call !in calls && t >= now
      modifies this
      ensures Valid() && Now() == Step(c, old(Now()), At(t, Event.Enter(call, k)))
    {
      ghost var s := Now();
      EnterInv(c, s, call, k, t);
      EnteredOk(c, s, call, k, t);
      EnterFlight(c, s, call, k, t);
      var found, id := GetLocked(k, t);
      if found {
        calls := calls[call := Waiting(id)];
      } else {
        id := AddLocked(k, t);
        calls := calls[call := Owner(id)];
        assert !closed ==> (s.m - {k})[k := id] == s.m[k := id];
      }
      now := t;
    }

    /** The work of an entry sends its result. */
    method WorkEnds(id: nat, r: Result, t: int)
      requires Valid() && id < |works| && works[id].None? && t >= now
      modifies this`works, this`now
      ensures Valid() && Now() == Step(c, old(Now()), At(t, Event.WorkEnds(id, r)))
    {
      StepSpacing(c, Now(), At(t, Event.WorkEnds(id, r)));
      WorkFlight(c, Now(), id, r, t);
      works := works[id := Some(r)];
      now := t;
    }

    /** The owner's select, once one of its channels is ready, then the release of the sharers. */
    method Complete(call: nat, timeout: bool, t: int)
      requires Valid() && call in calls && calls[call].Owner? && t >= now
      requires if timeout then t >= entries[calls[call].id].dob + c.ttl else works[calls[call].id].Some?
      modifies this
      ensures Valid() && Now() == Step(c, old(Now()), At(t, Event.Complete(call, timeout)))
    {
      ghost var s := Now();
      CompleteInv(c, s, call, timeout, t);
      CompletedOk(c, s, call, timeout, t);
      CompleteFlight(c, s, call, timeout, t);
      var id := calls[call].id;
      var e := entries[id];
      var r := if timeout then TIMED_OUT else works[id].value;
      entries := entries[id := e.(done := true, result := r, completions := e.completions + 1)];
      calls := calls[call := Back(id, false, r)];
      now := t;
    }

    method Wake(call: nat, t: int)
      requires Valid() && call in calls && calls[call].Waiting? && t >= now
      requires calls[call].id < |entries| && entries[calls[call].id].done
      modifies this
      ensures Valid() && Now() == Step(c, old(Now()), At(t, Event.Wake(call)))
    {
      StepSpacing(c, Now(), At(t, Event.Wake(call)));
      StepFlight(c, Now(), At(t, Event.Wake(call)));
      var id := calls[call].id;
      calls := calls[call := Back(id, true, entries[id].result)];
      now := t;
    }
  }
}
