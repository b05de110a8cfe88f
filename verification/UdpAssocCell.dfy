/** The association table's lock-protected regions as they run. */
module UdpAssocCell {
  import opened UdpAssoc

  class MuxTable {
    var t: map<(string, nat), nat>
    var muxers: seq<Muxer>
    var closed: seq<bool>
    var calls: map<nat, Call>

    ghost function Now(): Table
      reads this
    {
      Table(t, muxers, closed, calls)
    }

    constructor ()
      ensures Now() == START
    {
      t, muxers, closed, calls := map[], [], [], map[];
    }

    /** associate, first look-up: the tabled muxer, or a call that goes on to dial. */
    method Begin(call: nat, pid: string, uid: string, src: nat) returns (o: Outcome)
      requires call !in calls
      modifies this`calls
      ensures (Now(), o) == Step(old(Now()), Event.Begin(call, pid, uid, src))
    {
      if (pid, src) in t {
        var m := t[(pid, src)];
        return if m < |muxers| then Checked(muxers[m], m, pid, uid) else Refused;
      }
      calls := calls[call := Dialling(pid, uid, src)];
      return Quiet;
    }

    /** associate, second look-up: the dialled connection is closed if another call was faster. */
    method Finish(call: nat) returns (o: Outcome)
      requires call in calls && calls[call].Dialled? && calls[call].pc < |closed|
      modifies this
      ensures (Now(), o) == Step(old(Now()), Event.Finish(call))
    {
      var c := calls[call];
      calls := calls - {call};
      var k := (c.pid, c.src);
      if k in t {
        closed := closed[c.pc := true];
        var m := t[k];
        return if m < |muxers| then Checked(muxers[m], m, c.pid, c.uid) else Refused;
      }
      var x := Muxer(c.pid, c.uid, c.src, c.pc, false, false);
      t := t[k := |muxers|];
      muxers := muxers + [x];
      return Checked(x, |muxers| - 1, c.pid, c.uid);
    }

    /** dissociate, called back by a muxer that has stopped. */
    method Dissociate(m: nat)
      requires m < |muxers| && muxers[m].stopped && !muxers[m].dissociated
      modifies this`t, this`muxers
      ensures Now() == Step(old(Now()), Event.Dissociate(m)).0
    {
      var x := muxers[m];
      muxers := muxers[m := x.(dissociated := true)];
      t := t - {(x.pid, x.src)};
    }
  }
}
