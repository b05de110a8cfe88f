/** The muxer's lock-protected regions and the loops of its connections, as they run. */
module UdpCell {
  import opened Common
  import opened UdpDemux
  import UdpOwnership

  /** Every slice of a channel names a lease. */
  predicate Leased(q: seq<Slice>, n: nat) {
    forall i :: 0 <= i < |q| ==> q[i].loan < n
  }

  lemma KeptBy(m: Mux, es: seq<Event>)
    ensures UdpOwnership.Inv(m) ==> UdpOwnership.Inv(UdpOwnership.Steps(m, es))
  {
    if UdpOwnership.Inv(m) {
      UdpOwnership.StepsKeep(m, es);
    }
  }

  class Muxer {
    var loans: seq<Loan>
    var conns: seq<DemuxConn>
    var routes: map<nat, nat>
    var watched: set<nat>
    var stopped: bool
    var reader: Reader
    var calls: map<nat, ReadCall>

    ghost function Now(): Mux
      reads this
    {
      Mux(loans, conns, routes, watched, stopped, reader, calls)
    }

    constructor ()
      ensures Now() == START
    {
      loans, conns, routes, watched, stopped, reader, calls := [], [], map[], {}, false, Idle, map[];
    }

    method Recycle(id: nat)
      requires id < |loans|
      modifies this`loans
      ensures Now() == Fin(old(Now()), id)
    {
      var l := loans[id];
      loans := loans[id := l.(fins := l.fins + 1, place := Recycled)];
    }

    method Send(c: nat, over: bool, s: Slice)
      requires c < |conns| && s.loan < |loans|
      modifies this`loans, this`conns
      ensures Now() == Push(old(Now()), c, over, s)
    {
      conns := conns[c := WithChan(conns[c], over, Chan(conns[c], over) + [s])];
      loans := loans[s.loan := loans[s.loan].(place := InChannel(c, over))];
    }

    /** The select that hands a packet to its connection, or recycles it. */
    method Deliver(pick: bool)
      requires reader.Dispatching? && reader.loan < |loans| && reader.conn < |conns|
      modifies this
      ensures Now() == Step(old(Now()), Dispatch(pick))
    {
      var id, c := reader.loan, reader.conn;
      reader := Idle;
      if Sends(conns[c], false, pick) {
        Send(c, false, Slice(id, 0));
      } else {
        Recycle(id);
      }
    }

    /** io(): copies what fits and keeps or drops the rest. */
    method Copy(call: nat, pick: bool) returns (piece: Bytes)
      requires call in calls && calls[call].slice.loan < |loans| && calls[call].conn < |conns|
      requires calls[call].slice.off <= |loans[calls[call].slice.loan].data|
      modifies this
      ensures (Now(), piece) == Copied(old(Now()), call, pick)
    {
      var r := calls[call];
      var l := loans[r.slice.loan];
      var n := Min(r.room, |l.data| - r.slice.off);
      piece := l.data[r.slice.off..r.slice.off + n];
      var keep := r.slice.off + n < |l.data| && Sends(conns[r.conn], true, pick);
      calls := calls - {call};
      loans := loans[r.slice.loan := l.(handed := l.handed + piece)];
      if keep {
        Send(r.conn, true, Slice(r.slice.loan, r.slice.off + n));
      } else {
        Recycle(r.slice.loan);
      }
    }

    /** Takes and recycles the oldest slice of a closed connection's channel. */
    method DrainSlice(c: nat, over: bool)
      requires c < |conns| && conns[c].closed && Chan(conns[c], over) != [] && Chan(conns[c], over)[0].loan < |loans|
      modifies this`conns, this`loans
      ensures Now() == Step(old(Now()), DrainOne(c, over)) && |loans| == |old(loans)|
      ensures conns == old(conns)[c := WithChan(old(conns)[c], over, Chan(old(conns)[c], over)[1..])]
    {
      var q := Chan(conns[c], over);
      conns := conns[c := WithChan(conns[c], over, q[1..])];
      Recycle(q[0].loan);
    }

    /** Close(): signals, then drains both channels in whatever order the select picks. */
    method CloseConn(c: nat) returns (ghost es: seq<Event>)
      requires c < |conns| && Leased(conns[c].inCh, |loans|) && Leased(conns[c].overCh, |loans|)
      modifies this`conns, this`loans
      ensures Now() == UdpOwnership.Steps(old(Now()), es) && |es| == 1 + |old(conns)[c].inCh| + |old(conns)[c].overCh|
      ensures conns == old(conns)[c := DemuxConn(old(conns)[c].key, [], [], true)]
      ensures UdpOwnership.Inv(old(Now())) ==> UdpOwnership.Inv(Now())
    {
      ghost var was := conns[c];
      es := [Event.Close(c)];
      conns := conns[c := conns[c].(closed := true)];
      assert UdpOwnership.Steps(old(Now()), es[..0]) == old(Now());
      while conns[c].inCh != [] || conns[c].overCh != []
        invariant |conns| == |old(conns)| && conns[c].closed && conns[c].key == was.key
        invariant conns == old(conns)[c := conns[c]] && |loans| == |old(loans)|
        invariant Leased(conns[c].inCh, |loans|) && Leased(conns[c].overCh, |loans|)
        invariant Now() == UdpOwnership.Steps(old(Now()), es)
        invariant |es| + |conns[c].inCh| + |conns[c].overCh| == 1 + |was.inCh| + |was.overCh|
        decreases |conns[c].inCh| + |conns[c].overCh|
      {
        var over := *;
        if Chan(conns[c], over) == [] {
          over := !over;
        }
        DrainSlice(c, over);
        ghost var before := es;
        es := es + [DrainOne(c, over)];
        assert es[..|es| - 1] == before;
      }
      KeptBy(old(Now()), es);
    }

    /** unroute(), once the connection has closed. */
    method UnrouteConn(c: nat)
      requires c in watched && c < |conns| && conns[c].closed
      modifies this`routes, this`watched
      ensures Now() == Step(old(Now()), Event.Unroute(c))
    {
      routes := routes - {conns[c].key};
      watched := watched - {c};
    }
  }
}
