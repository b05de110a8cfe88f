/** Every leased buffer is in exactly one place, and every byte of a packet is accounted for. */
module UdpOwnership {
  import opened Common
  import opened UdpDemux

  /** The slices of one channel: distinct loans, each placed there, each continuing where Reads stopped. */
  ghost predicate ChanOk(loans: seq<Loan>, q: seq<Slice>, here: Place, transit: int) {
    && (forall i :: 0 <= i < |q| ==>
          && q[i].loan < |loans| && q[i].loan != transit
          && loans[q[i].loan].place == here && q[i].off == |loans[q[i].loan].handed|)
    && (forall i, j :: 0 <= i < j < |q| ==> q[i].loan != q[j].loan)
  }

  ghost predicate ConnsOk(loans: seq<Loan>, conns: seq<DemuxConn>, transit: int) {
    forall c, over :: 0 <= c < |conns| ==> ChanOk(loans, Chan(conns[c], over), InChannel(c, over), transit)
  }

  ghost predicate CallsOk(loans: seq<Loan>, calls: map<nat, ReadCall>, nconns: nat, transit: int) {
    forall t :: t in calls ==>
      && calls[t].slice.loan < |loans| && calls[t].slice.loan != transit && calls[t].conn < nconns
      && loans[calls[t].slice.loan].place == WithRead(t) && calls[t].slice.off == |loans[calls[t].slice.loan].handed|
  }

  ghost predicate ReaderOk(loans: seq<Loan>, reader: Reader, nconns: nat, transit: int) {
    reader != Idle ==>
      && reader.loan < |loans| && reader.loan != transit && loans[reader.loan].place == WithReader
      && (reader.Dispatching? ==> reader.conn < nconns)
  }

  ghost predicate Queued(conns: seq<DemuxConn>, c: nat, over: bool, id: nat) {
    c < |conns| && exists i :: 0 <= i < |Chan(conns[c], over)| && Chan(conns[c], over)[i].loan == id
  }

  /** What a loan's place promises about the state. */
  ghost predicate Placed(l: Loan, id: nat, conns: seq<DemuxConn>, reader: Reader, calls: map<nat, ReadCall>) {
    match l.place
    case WithReader => reader != Idle && reader.loan == id && l.handed == []
    case InChannel(c, over) => Queued(conns, c, over, id)
    case WithRead(t) => t in calls && calls[t].slice.loan == id
    case Recycled => true
  }

  /** The recycler has run exactly when the loan is recycled, and Reads got a prefix of the packet. */
  ghost predicate Accounted(l: Loan) {
    l.fins == (if l.place.Recycled? then 1 else 0) && l.handed <= l.data
  }

  /** The ownership invariant, while loan `transit` (if not -1) is between two places. */
  ghost predicate OwnedBut(m: Mux, transit: int) {
    && ConnsOk(m.loans, m.conns, transit)
    && CallsOk(m.loans, m.calls, |m.conns|, transit)
    && ReaderOk(m.loans, m.reader, |m.conns|, transit)
    && (forall id :: 0 <= id < |m.loans| ==> m.loans[id].handed <= m.loans[id].data)
    && (forall id :: 0 <= id < |m.loans| && id != transit ==>
          Accounted(m.loans[id]) && Placed(m.loans[id], id, m.conns, m.reader, m.calls))
    && (0 <= transit ==> transit < |m.loans| && m.loans[transit].fins == 0)
  }

  ghost predicate Owned(m: Mux) {
    OwnedBut(m, -1)
  }

  // ---- Moving one loan ------------------------------------------------------------------------

  /** A channel does not mind what happens to a loan that is in transit. */
  lemma ChanIgnores(loans: seq<Loan>, q: seq<Slice>, here: Place, id: nat, l: Loan)
    requires ChanOk(loans, q, here, id) && id < |loans|
    ensures ChanOk(loans[id := l], q, here, -1)
  {
  }

  lemma ChanTakes(loans: seq<Loan>, q: seq<Slice>, here: Place, id: nat)
    requires ChanOk(loans, q, here, id) && id < |loans|
    ensures ChanOk(loans[id := loans[id].(place := here)], q + [Slice(id, |loans[id].handed|)], here, -1)
  {
  }

  lemma ConnsIgnore(loans: seq<Loan>, conns: seq<DemuxConn>, id: nat, l: Loan)
    requires ConnsOk(loans, conns, id) && id < |loans|
    ensures ConnsOk(loans[id := l], conns, -1)
  {
    forall c, over | 0 <= c < |conns|
      ensures ChanOk(loans[id := l], Chan(conns[c], over), InChannel(c, over), -1)
    {
      ChanIgnores(loans, Chan(conns[c], over), InChannel(c, over), id, l);
    }
  }

  lemma FinOwned(m: Mux, id: nat)
    requires OwnedBut(m, id)
    ensures Owned(Fin(m, id))
  {
    var l := m.loans[id];
    ConnsIgnore(m.loans, m.conns, id, l.(fins := l.fins + 1, place := Recycled));
  }

  lemma StillQueued(conns: seq<DemuxConn>, after: seq<DemuxConn>, c: nat, over: bool, j: nat, d: nat, o: bool)
    requires c < |conns| == |after| && Queued(conns, d, o, j)
    requires forall e :: 0 <= e < |conns| && e != c ==> after[e] == conns[e]
    requires Chan(after[c], !over) == Chan(conns[c], !over)
    requires forall i :: 0 <= i < |Chan(conns[c], over)| && Chan(conns[c], over)[i].loan == j ==>
               exists k :: 0 <= k < |Chan(after[c], over)| && Chan(after[c], over)[k].loan == j
    ensures Queued(after, d, o, j)
  {
    var i :| 0 <= i < |Chan(conns[d], o)| && Chan(conns[d], o)[i].loan == j;
    if d != c {
      assert Chan(after[d], o)[i].loan == j;
    } else if o != over {
      assert Chan(after[d], o)[i].loan == j;
    }
  }

  lemma ConnsTake(loans: seq<Loan>, conns: seq<DemuxConn>, c: nat, over: bool, id: nat)
    requires ConnsOk(loans, conns, id) && id < |loans| && c < |conns|
    ensures ConnsOk(loans[id := loans[id].(place := InChannel(c, over))],
                    conns[c := WithChan(conns[c], over, Chan(conns[c], over) + [Slice(id, |loans[id].handed|)])], -1)
  {
    var l := loans[id].(place := InChannel(c, over));
    var after := conns[c := WithChan(conns[c], over, Chan(conns[c], over) + [Slice(id, |loans[id].handed|)])];
    forall d, o | 0 <= d < |after|
      ensures ChanOk(loans[id := l], Chan(after[d], o), InChannel(d, o), -1)
    {
      ChanIgnores(loans, Chan(conns[d], o), InChannel(d, o), id, l);
      if d == c && o == over {
        ChanTakes(loans, Chan(conns[d], o), InChannel(d, o), id);
      }
    }
  }

  lemma PushPlaced(m: Mux, c: nat, over: bool, id: nat, j: nat)
    requires OwnedBut(m, id) && c < |m.conns| && j < |m.loans|
    ensures var p := Push(m, c, over, Slice(id, |m.loans[id].handed|));
            Placed(p.loans[j], j, p.conns, p.reader, p.calls)
  {
    var p := Push(m, c, over, Slice(id, |m.loans[id].handed|));
    var q := Chan(m.conns[c], over);
    if j == id {
      assert Chan(p.conns[c], over)[|q|].loan == id;
    } else if m.loans[j].place.InChannel? {
      forall i | 0 <= i < |q| && q[i].loan == j
        ensures exists k :: 0 <= k < |Chan(p.conns[c], over)| && Chan(p.conns[c], over)[k].loan == j
      {
        assert Chan(p.conns[c], over)[i].loan == j;
      }
      StillQueued(m.conns, p.conns, c, over, j, m.loans[j].place.conn, m.loans[j].place.over);
    }
  }

  lemma PushOwned(m: Mux, c: nat, over: bool, id: nat)
    requires OwnedBut(m, id) && c < |m.conns|
    ensures Owned(Push(m, c, over, Slice(id, |m.loans[id].handed|)))
  {
    ConnsTake(m.loans, m.conns, c, over, id);
    var p := Push(m, c, over, Slice(id, |m.loans[id].handed|));
    forall j | 0 <= j < |p.loans|
      ensures Placed(p.loans[j], j, p.conns, p.reader, p.calls)
    {
      PushPlaced(m, c, over, id, j);
    }
  }

  lemma PopPlaced(m: Mux, c: nat, over: bool, j: nat)
    requires Owned(m) && c < |m.conns| && Chan(m.conns[c], over) != []
    requires j < |m.loans| && j != Chan(m.conns[c], over)[0].loan
    ensures var p := Pop(m, c, over); Placed(p.loans[j], j, p.conns, p.reader, p.calls)
  {
    var q := Chan(m.conns[c], over);
    var p := Pop(m, c, over);
    if m.loans[j].place.InChannel? {
      forall i | 0 <= i < |q| && q[i].loan == j
        ensures exists k :: 0 <= k < |Chan(p.conns[c], over)| && Chan(p.conns[c], over)[k].loan == j
      {
        assert Chan(p.conns[c], over)[i - 1].loan == j;
      }
      StillQueued(m.conns, p.conns, c, over, j, m.loans[j].place.conn, m.loans[j].place.over);
    }
  }

  lemma PopChan(loans: seq<Loan>, q: seq<Slice>, here: Place)
    requires ChanOk(loans, q, here, -1) && q != []
    ensures ChanOk(loans, q[1..], here, q[0].loan)
  {
  }

  lemma ElsewhereChan(loans: seq<Loan>, q: seq<Slice>, here: Place, id: nat)
    requires ChanOk(loans, q, here, -1) && id < |loans| && loans[id].place != here
    ensures ChanOk(loans, q, here, id)
  {
  }

  lemma PopConns(loans: seq<Loan>, conns: seq<DemuxConn>, c: nat, over: bool)
    requires ConnsOk(loans, conns, -1) && c < |conns| && Chan(conns[c], over) != []
    ensures var q := Chan(conns[c], over); ConnsOk(loans, conns[c := WithChan(conns[c], over, q[1..])], q[0].loan)
  {
    var q := Chan(conns[c], over);
    var after := conns[c := WithChan(conns[c], over, q[1..])];
    PopChan(loans, q, InChannel(c, over));
    forall d, o | 0 <= d < |after|
      ensures ChanOk(loans, Chan(after[d], o), InChannel(d, o), q[0].loan)
    {
      if d == c && o == over {
        assert Chan(after[d], o) == q[1..];
      } else {
        assert Chan(after[d], o) == Chan(conns[d], o);
        ElsewhereChan(loans, Chan(conns[d], o), InChannel(d, o), q[0].loan);
      }
    }
  }

  lemma PopOwned(m: Mux, c: nat, over: bool)
    requires Owned(m) && c < |m.conns| && Chan(m.conns[c], over) != []
    ensures OwnedBut(Pop(m, c, over), Chan(m.conns[c], over)[0].loan)
  {
    var q := Chan(m.conns[c], over);
    var id := q[0].loan;
    var p := Pop(m, c, over);
    assert ChanOk(m.loans, q, InChannel(c, over), -1);
    PopConns(m.loans, m.conns, c, over);
    forall j | 0 <= j < |p.loans| && j != id
      ensures Placed(p.loans[j], j, p.conns, p.reader, p.calls)
    {
      PopPlaced(m, c, over, j);
    }
  }

  lemma GrabOwned(p: Mux, call: nat, c: nat, id: nat, room: nat)
    requires OwnedBut(p, id) && call !in p.calls && c < |p.conns|
    ensures Owned(p.(calls := p.calls[call := ReadCall(c, Slice(id, |p.loans[id].handed|), room)],
                     loans := p.loans[id := p.loans[id].(place := WithRead(call))]))
  {
    ConnsIgnore(p.loans, p.conns, id, p.loans[id].(place := WithRead(call)));
  }

  /** A Read takes the oldest slice of a channel. */
  lemma ReceiveOwned(m: Mux, call: nat, c: nat, over: bool, room: nat)
    requires Owned(m) && call !in m.calls && c < |m.conns| && Chan(m.conns[c], over) != []
    ensures Chan(m.conns[c], over)[0].loan < |m.loans| && Owned(Received(m, call, c, over, room))
  {
    var s := Chan(m.conns[c], over)[0];
    assert ChanOk(m.loans, Chan(m.conns[c], over), InChannel(c, over), -1);
    PopOwned(m, c, over);
    GrabOwned(Pop(m, c, over), call, c, s.loan, room);
  }

  lemma ChanLets(loans: seq<Loan>, q: seq<Slice>, here: Place, id: nat, l: Loan)
    requires ChanOk(loans, q, here, -1) && id < |loans| && loans[id].place != here
    ensures ChanOk(loans[id := l], q, here, id)
  {
  }

  /** A Read hands out the next piece; its loan is then in transit. */
  lemma HandOut(m: Mux, call: nat, id: nat, l: Loan)
    requires Owned(m) && call in m.calls && m.calls[call].slice.loan == id
    requires l.handed <= l.data && l.fins == m.loans[id].fins
    ensures OwnedBut(m.(calls := m.calls - {call}, loans := m.loans[id := l]), id)
  {
    var h := m.(calls := m.calls - {call}, loans := m.loans[id := l]);
    forall d, o | 0 <= d < |h.conns|
      ensures ChanOk(h.loans, Chan(h.conns[d], o), InChannel(d, o), id)
    {
      ChanLets(m.loans, Chan(m.conns[d], o), InChannel(d, o), id, l);
    }
  }

  lemma ServedOwned(m: Mux, call: nat, c: nat, id: nat, l: Loan, keep: bool)
    requires Owned(m) && call in m.calls && m.calls[call].slice.loan == id && c < |m.conns|
    requires l.handed <= l.data && l.fins == m.loans[id].fins
    ensures Owned(Served(m, call, c, id, l, |l.handed|, keep))
  {
    HandOut(m, call, id, l);
    var h := m.(calls := m.calls - {call}, loans := m.loans[id := l]);
    if keep {
      PushOwned(h, c, true, id);
    } else {
      FinOwned(h, id);
    }
  }

  /** What one io() does to the loan it serves. */
  ghost predicate HandsNext(before: Loan, after: Loan, piece: Bytes, room: nat) {
    && after.data == before.data
    && after.handed == before.handed + piece <= before.data
    && |piece| == Min(room, |before.data| - |before.handed|)
  }

  /** io() hands out exactly the next bytes of the packet; the rest stays queued or is dropped. */
  lemma IoHandsNext(m: Mux, call: nat, pick: bool)
    requires call in m.calls && m.calls[call].slice.loan < |m.loans| && m.calls[call].conn < |m.conns|
    requires var l := m.loans[m.calls[call].slice.loan]; m.calls[call].slice.off == |l.handed| && l.handed <= l.data
    ensures var r := m.calls[call];
            var (after, piece) := Copied(m, call, pick);
            && |after.loans| == |m.loans|
            && HandsNext(m.loans[r.slice.loan], after.loans[r.slice.loan], piece, r.room)
            && forall j :: 0 <= j < |m.loans| && j != r.slice.loan ==> after.loans[j] == m.loans[j]
  {
  }

  lemma CallFacts(m: Mux, call: nat)
    requires Owned(m) && call in m.calls
    ensures m.calls[call].slice.loan < |m.loans| && m.calls[call].conn < |m.conns|
    ensures var l := m.loans[m.calls[call].slice.loan]; m.calls[call].slice.off == |l.handed| && l.handed <= l.data
  {
  }

  /** io() as a hand-out of the next piece followed by the end of the slice's journey. */
  lemma CopiedIsServed(m: Mux, call: nat, pick: bool) returns (l: Loan, keep: bool)
    requires call in m.calls && m.calls[call].slice.loan < |m.loans| && m.calls[call].conn < |m.conns|
    requires var l := m.loans[m.calls[call].slice.loan]; m.calls[call].slice.off == |l.handed| && l.handed <= l.data
    ensures var r := m.calls[call]; Copied(m, call, pick).0 == Served(m, call, r.conn, r.slice.loan, l, |l.handed|, keep)
    ensures l.handed <= l.data && l.fins == m.loans[m.calls[call].slice.loan].fins
  {
    var r := m.calls[call];
    l := m.loans[r.slice.loan];
    var n := Min(r.room, |l.data| - r.slice.off);
    keep := r.slice.off + n < |l.data| && Sends(m.conns[r.conn], true, pick);
    l := l.(handed := l.handed + l.data[r.slice.off..r.slice.off + n]);
  }

  lemma IoOwned(m: Mux, call: nat, pick: bool)
    requires Owned(m) && call in m.calls
    ensures m.calls[call].slice.loan < |m.loans| && m.calls[call].conn < |m.conns|
    ensures m.calls[call].slice.off <= |m.loans[m.calls[call].slice.loan].data|
    ensures Owned(Copied(m, call, pick).0)
  {
    CallFacts(m, call);
    var l, keep := CopiedIsServed(m, call, pick);
    ServedOwned(m, call, m.calls[call].conn, m.calls[call].slice.loan, l, keep);
  }

  // ---- The readers loop and the connections ------------------------------------------------------

  /** The readers loop lets go of its buffer. */
  lemma ReleaseReader(m: Mux)
    requires Owned(m) && m.reader != Idle
    ensures m.reader.loan < |m.loans| && m.loans[m.reader.loan].handed == []
    ensures OwnedBut(m.(reader := Idle), m.reader.loan)
  {
    var id := m.reader.loan;
    forall c, over | 0 <= c < |m.conns|
      ensures ChanOk(m.loans, Chan(m.conns[c], over), InChannel(c, over), id)
    {
      ChanLets(m.loans, Chan(m.conns[c], over), InChannel(c, over), id, m.loans[id]);
      assert m.loans[id := m.loans[id]] == m.loans;
    }
  }

  lemma AllocOwned(m: Mux)
    requires Owned(m) && m.reader == Idle
    ensures Owned(Step(m, Alloc))
  {
    var a := Step(m, Alloc);
    forall c, over | 0 <= c < |a.conns|
      ensures ChanOk(a.loans, Chan(a.conns[c], over), InChannel(c, over), -1)
    {
      assert ChanOk(m.loans, Chan(m.conns[c], over), InChannel(c, over), -1);
    }
  }

  /** The packet arrives in the buffer the readers loop holds. */
  lemma FillOwned(m: Mux, data: Bytes)
    requires Owned(m) && m.reader.Holding?
    ensures m.reader.loan < |m.loans|
    ensures Owned(m.(loans := m.loans[m.reader.loan := m.loans[m.reader.loan].(data := data)]))
  {
    ReaderFacts(m);
    var id := m.reader.loan;
    var loans := m.loans[id := m.loans[id].(data := data)];
    forall c, over | 0 <= c < |m.conns|
      ensures ChanOk(loans, Chan(m.conns[c], over), InChannel(c, over), -1)
    {
      assert ChanOk(m.loans, Chan(m.conns[c], over), InChannel(c, over), -1);
    }
    forall j | 0 <= j < |loans|
      ensures Accounted(loans[j]) && Placed(loans[j], j, m.conns, m.reader, m.calls)
    {
      assert Accounted(m.loans[j]) && Placed(m.loans[j], j, m.conns, m.reader, m.calls);
    }
  }

  /** Two lists of connections with the same channels, up to new connections with empty ones. */
  ghost predicate SameChans(conns: seq<DemuxConn>, after: seq<DemuxConn>) {
    && |conns| <= |after|
    && (forall c, over :: 0 <= c < |conns| ==> Chan(after[c], over) == Chan(conns[c], over))
    && (forall c, over :: |conns| <= c < |after| ==> Chan(after[c], over) == [])
  }

  lemma SameChansOwned(m: Mux, after: Mux)
    requires Owned(m) && SameChans(m.conns, after.conns)
    requires after.loans == m.loans && after.calls == m.calls
    requires after.reader == m.reader
    ensures Owned(after)
  {
    forall c, over | 0 <= c < |after.conns|
      ensures ChanOk(after.loans, Chan(after.conns[c], over), InChannel(c, over), -1)
    {
      if c < |m.conns| {
        assert ChanOk(m.loans, Chan(m.conns[c], over), InChannel(c, over), -1);
      }
    }
    forall j | 0 <= j < |after.loans|
      ensures Placed(after.loans[j], j, after.conns, after.reader, after.calls)
    {
      assert Placed(m.loans[j], j, m.conns, m.reader, m.calls);
      if m.loans[j].place.InChannel? {
        var c, over := m.loans[j].place.conn, m.loans[j].place.over;
        var i :| 0 <= i < |Chan(m.conns[c], over)| && Chan(m.conns[c], over)[i].loan == j;
        assert Chan(after.conns[c], over)[i].loan == j;
      }
    }
  }

  lemma RoutedOwned(m: Mux, to: nat, accepted: bool)
    requires Owned(m)
    ensures Owned(Routed(m, to, accepted).0) && |m.conns| <= |Routed(m, to, accepted).0.conns|
  {
    SameChansOwned(m, Routed(m, to, accepted).0);
  }

  /** A buffer is handed to its connection's channel, or recycled when there is no room. */
  lemma DispatchOwned(m: Mux, pick: bool)
    requires Owned(m) && m.reader.Dispatching?
    ensures m.reader.loan < |m.loans| && m.reader.conn < |m.conns|
    ensures Owned(Dispatched(m, m.reader.loan, m.reader.conn, pick))
  {
    ReleaseReader(m);
    var h := m.(reader := Idle);
    if Sends(m.conns[m.reader.conn], false, pick) {
      PushOwned(h, m.reader.conn, false, m.reader.loan);
    } else {
      FinOwned(h, m.reader.loan);
    }
  }

  lemma PacketOwned(m: Mux, data: Bytes, from: nat, accepted: bool)
    requires Owned(m) && m.reader.Holding? && RoutesOk(m)
    ensures Owned(Step(m, ReadPacket(data, from, accepted)))
  {
    var id := m.reader.loan;
    FillOwned(m, data);
    var f := m.(loans := m.loans[id := m.loans[id].(data := data)]);
    RoutedOwned(f, from, accepted);
    var (r, c) := Routed(f, from, accepted);
    PacketStep(m, data, from, accepted, f, r, c);
    if c < 0 {
      ReleaseReader(r);
      FinOwned(r.(reader := Idle), id);
    } else {
      RoutedTo(f, from, accepted);
      DispatchingOwned(r, c);
    }
  }

  lemma PacketStep(m: Mux, data: Bytes, from: nat, accepted: bool, f: Mux, r: Mux, c: int)
    requires m.reader.Holding? && m.reader.loan < |m.loans|
    requires f == m.(loans := m.loans[m.reader.loan := m.loans[m.reader.loan].(data := data)])
    requires (r, c) == Routed(f, from, accepted)
    ensures Step(m, ReadPacket(data, from, accepted)) ==
            if c < 0 then Fin(r.(reader := Idle), m.reader.loan) else r.(reader := Dispatching(m.reader.loan, c))
  {
  }

  lemma DispatchingOwned(m: Mux, c: nat)
    requires Owned(m) && m.reader.Holding? && c < |m.conns|
    ensures Owned(m.(reader := Dispatching(m.reader.loan, c)))
  {
  }

  // ---- Routing ----------------------------------------------------------------------------------

  /** Every route leads to a connection for that very remote; until the muxer stops, the routed
      connections are exactly the watched ones. */
  ghost predicate RoutesOk(m: Mux) {
    && (forall k :: k in m.routes ==> m.routes[k] < |m.conns| && m.conns[m.routes[k]].key == k)
    && (forall c :: c in m.watched ==> c < |m.conns|)
    && (!m.stopped ==>
          && (forall c :: c in m.watched ==> m.conns[c].key in m.routes && m.routes[m.conns[c].key] == c)
          && (forall k :: k in m.routes ==> m.routes[k] in m.watched))
  }

  lemma RoutedTo(m: Mux, to: nat, accepted: bool)
    requires RoutesOk(m)
    ensures var (r, c) := Routed(m, to, accepted);
            && RoutesOk(r)
            && (0 <= c ==> c < |r.conns| && r.conns[c].key == to && to in r.routes && r.routes[to] == c)
            && (c < 0 ==> m.stopped)
  {
  }

  ghost predicate SameRouting(m: Mux, after: Mux) {
    && after.routes == m.routes && after.watched == m.watched && after.stopped == m.stopped
    && |after.conns| == |m.conns|
    && forall c :: 0 <= c < |m.conns| ==> after.conns[c].key == m.conns[c].key
  }

  lemma SameRoutingOk(m: Mux, after: Mux)
    requires RoutesOk(m) && SameRouting(m, after)
    ensures RoutesOk(after)
  {
  }

  /** Steps that neither route, unroute nor stop. */
  predicate Quiet(e: Event) {
    !e.ReadPacket? && !e.RouteOut? && !e.Unroute? && !e.Stop?
  }

  lemma PushSame(m: Mux, c: nat, over: bool, s: Slice)
    requires c < |m.conns| && s.loan < |m.loans|
    ensures SameRouting(m, Push(m, c, over, s))
  {
  }

  lemma PopSame(m: Mux, c: nat, over: bool)
    requires c < |m.conns| && Chan(m.conns[c], over) != []
    ensures SameRouting(m, Pop(m, c, over))
  {
  }

  lemma DispatchedSame(m: Mux, id: nat, c: nat, pick: bool)
    requires id < |m.loans| && c < |m.conns|
    ensures SameRouting(m, Dispatched(m, id, c, pick))
  {
    if Sends(m.conns[c], false, pick) {
      PushSame(m.(reader := Idle), c, false, Slice(id, 0));
    }
  }

  lemma ServedSame(m: Mux, call: nat, c: nat, id: nat, l: Loan, off: nat, keep: bool)
    requires c < |m.conns| && id < |m.loans|
    ensures SameRouting(m, Served(m, call, c, id, l, off, keep))
  {
    if keep {
      PushSame(m.(calls := m.calls - {call}, loans := m.loans[id := l]), c, true, Slice(id, off));
    }
  }

  lemma CopiedSame(m: Mux, call: nat, pick: bool)
    requires call in m.calls && m.calls[call].slice.loan < |m.loans| && m.calls[call].conn < |m.conns|
    requires m.calls[call].slice.off <= |m.loans[m.calls[call].slice.loan].data|
    ensures SameRouting(m, Copied(m, call, pick).0)
  {
    var r := m.calls[call];
    var l := m.loans[r.slice.loan];
    var n := Min(r.room, |l.data| - r.slice.off);
    ServedSame(m, call, r.conn, r.slice.loan, l.(handed := l.handed + l.data[r.slice.off..r.slice.off + n]), r.slice.off + n,
               r.slice.off + n < |l.data| && Sends(m.conns[r.conn], true, pick));
  }

  lemma ConnSame(m: Mux, e: Event)
    requires ByConn(e)
    ensures SameRouting(m, Step(m, e))
  {
    match e
    case Receive(call, c, over, room) => ReceiveSame(m, call, c, over, room);
    case DrainOne(c, over) => DrainSame(m, c, over);
    case Io(call, pick) => IoSame(m, call, pick);
  }

  lemma ReceiveSame(m: Mux, call: nat, c: nat, over: bool, room: nat)
    ensures SameRouting(m, Step(m, Receive(call, c, over, room)))
  {
    if c < |m.conns| && Chan(m.conns[c], over) != [] {
      PopSame(m, c, over);
    }
  }

  lemma DrainSame(m: Mux, c: nat, over: bool)
    ensures SameRouting(m, Step(m, DrainOne(c, over)))
  {
    if c < |m.conns| && Chan(m.conns[c], over) != [] {
      PopSame(m, c, over);
    }
  }

  lemma IoSame(m: Mux, call: nat, pick: bool)
    ensures SameRouting(m, Step(m, Io(call, pick)))
  {
    if call in m.calls && m.calls[call].slice.loan < |m.loans| && m.calls[call].conn < |m.conns|
       && m.calls[call].slice.off <= |m.loans[m.calls[call].slice.loan].data| {
      CopiedSame(m, call, pick);
    }
  }

  lemma DispatchSame(m: Mux, pick: bool)
    ensures SameRouting(m, Step(m, Dispatch(pick)))
  {
    if m.reader.Dispatching? && m.reader.loan < |m.loans| && m.reader.conn < |m.conns| {
      DispatchedSame(m, m.reader.loan, m.reader.conn, pick);
    }
  }

  lemma QuietRoutes(m: Mux, e: Event)
    requires Quiet(e)
    ensures SameRouting(m, Step(m, e))
  {
    if ByConn(e) {
      ConnSame(m, e);
    } else if e.Dispatch? {
      DispatchSame(m, e.pick);
    } else {
      assert e.Alloc? || e.ReadFailed? || e.Close?;
    }
  }

  lemma PacketRoutes(m: Mux, data: Bytes, from: nat, accepted: bool)
    requires RoutesOk(m) && m.reader.Holding? && m.reader.loan < |m.loans|
    ensures RoutesOk(Step(m, ReadPacket(data, from, accepted)))
  {
    var id := m.reader.loan;
    var f := m.(loans := m.loans[id := m.loans[id].(data := data)]);
    RoutedTo(f, from, accepted);
    SameRoutingOk(Routed(f, from, accepted).0, Step(m, ReadPacket(data, from, accepted)));
  }

  lemma UnrouteRoutes(m: Mux, c: nat)
    requires RoutesOk(m)
    ensures RoutesOk(Step(m, Unroute(c)))
  {
  }

  lemma StepRoutes(m: Mux, e: Event)
    requires RoutesOk(m)
    ensures RoutesOk(Step(m, e))
  {
    if e.ReadPacket? {
      if m.reader.Holding? && m.reader.loan < |m.loans| {
        PacketRoutes(m, e.data, e.from, e.accepted);
      }
    } else if e.RouteOut? {
      RoutedTo(m, e.to, e.accepted);
    } else if e.Unroute? {
      UnrouteRoutes(m, e.c);
    } else if Quiet(e) {
      QuietRoutes(m, e);
      SameRoutingOk(m, Step(m, e));
    }
  }

  /** Until the muxer stops, unrouting a closed connection removes its own route and no other: the
      route gone led to that connection, not to a newer one for the same remote. */
  lemma UnrouteRemovesOwn(m: Mux, c: nat)
    requires RoutesOk(m) && !m.stopped && c in m.watched && m.conns[c].closed
    ensures var u := Step(m, Unroute(c));
            && m.conns[c].key in m.routes && m.routes[m.conns[c].key] == c
            && u.routes == map k | k in m.routes && m.routes[k] != c :: m.routes[k]
  {
  }

  // ---- Every run ----------------------------------------------------------------------------------

  ghost predicate Inv(m: Mux) {
    Owned(m) && RoutesOk(m)
  }

  lemma DrainOwned(m: Mux, c: nat, over: bool)
    requires Owned(m) && c < |m.conns| && Chan(m.conns[c], over) != []
    ensures Chan(m.conns[c], over)[0].loan < |m.loans|
    ensures Owned(Fin(Pop(m, c, over), Chan(m.conns[c], over)[0].loan))
  {
    assert ChanOk(m.loans, Chan(m.conns[c], over), InChannel(c, over), -1);
    PopOwned(m, c, over);
    FinOwned(Pop(m, c, over), Chan(m.conns[c], over)[0].loan);
  }

  predicate ByReader(e: Event) {
    e.Alloc? || e.ReadFailed? || e.ReadPacket? || e.Dispatch?
  }

  predicate ByConn(e: Event) {
    e.Receive? || e.Io? || e.DrainOne?
  }

  lemma FailOwned(m: Mux)
    requires Owned(m) && m.reader.Holding?
    ensures Owned(Step(m, ReadFailed))
  {
    ReleaseReader(m);
    FinOwned(m.(reader := Idle), m.reader.loan);
  }

  lemma ReaderOwned(m: Mux, e: Event)
    requires Inv(m) && ByReader(e)
    ensures Owned(Step(m, e))
  {
    match e
    case Alloc => if m.reader == Idle { AllocOwned(m); }
    case ReadFailed => if m.reader.Holding? { FailOwned(m); }
    case ReadPacket(data, from, accepted) => if m.reader.Holding? { PacketOwned(m, data, from, accepted); }
    case Dispatch(pick) => if m.reader.Dispatching? { DispatchOwned(m, pick); }
  }

  lemma ConnOwned(m: Mux, e: Event)
    requires Owned(m) && ByConn(e)
    ensures Owned(Step(m, e))
  {
    match e
    case Receive(call, c, over, room) => ReceiveKeeps(m, call, c, over, room);
    case Io(call, pick) => IoKeeps(m, call, pick);
    case DrainOne(c, over) => DrainKeeps(m, c, over);
  }

  lemma ReceiveKeeps(m: Mux, call: nat, c: nat, over: bool, room: nat)
    requires Owned(m)
    ensures Owned(Step(m, Receive(call, c, over, room)))
  {
    if call !in m.calls && c < |m.conns| && Chan(m.conns[c], over) != [] {
      ReceiveOwned(m, call, c, over, room);
    }
  }

  lemma IoKeeps(m: Mux, call: nat, pick: bool)
    requires Owned(m)
    ensures Owned(Step(m, Io(call, pick)))
  {
    if call in m.calls {
      IoOwned(m, call, pick);
      IoStep(m, call, pick, Copied(m, call, pick).0);
    }
  }

  lemma IoStep(m: Mux, call: nat, pick: bool, after: Mux)
    requires call in m.calls && m.calls[call].slice.loan < |m.loans| && m.calls[call].conn < |m.conns|
    requires m.calls[call].slice.off <= |m.loans[m.calls[call].slice.loan].data|
    requires after == Copied(m, call, pick).0
    ensures Step(m, Io(call, pick)) == after
  {
  }

  lemma DrainKeeps(m: Mux, c: nat, over: bool)
    requires Owned(m)
    ensures Owned(Step(m, DrainOne(c, over)))
  {
    if c < |m.conns| && m.conns[c].closed && Chan(m.conns[c], over) != [] {
      DrainOwned(m, c, over);
    }
  }

  lemma SignalOwned(m: Mux, e: Event)
    requires Owned(m) && (e.Close? || e.Unroute? || e.Stop?)
    ensures Owned(Step(m, e))
  {
    match e {
      case Close(c) => CloseSame(m, c, Step(m, e));
      case Unroute(c) => UnrouteSame(m, c, Step(m, e));
      case Stop => StopSame(m, Step(m, e));
    }
    SameChansOwned(m, Step(m, e));
  }

  /** What a signal leaves alone. */
  ghost predicate SameHeld(m: Mux, after: Mux) {
    SameChans(m.conns, after.conns) && after.loans == m.loans && after.calls == m.calls && after.reader == m.reader
  }

  lemma CloseSame(m: Mux, c: nat, after: Mux)
    requires after == Step(m, Close(c))
    ensures SameHeld(m, after)
  {
  }

  lemma UnrouteSame(m: Mux, c: nat, after: Mux)
    requires after == Step(m, Unroute(c))
    ensures SameHeld(m, after)
  {
  }

  lemma StopSame(m: Mux, after: Mux)
    requires after == Step(m, Stop)
    ensures SameHeld(m, after)
  {
  }

  lemma StepOwned(m: Mux, e: Event)
    requires Inv(m)
    ensures Owned(Step(m, e))
  {
    if ByReader(e) {
      ReaderOwned(m, e);
    } else if ByConn(e) {
      ConnOwned(m, e);
    } else if e.RouteOut? {
      RoutedOwned(m, e.to, e.accepted);
    } else {
      SignalOwned(m, e);
    }
  }

  /** Every interleaving of packets, reads, closes and stops keeps both invariants. */
  lemma {:induction false} EveryRunKeeps(es: seq<Event>)
    ensures Inv(Run(es))
  {
    if es != [] {
      var m := Run(es[..|es| - 1]);
      EveryRunKeeps(es[..|es| - 1]);
      StepOwned(m, es[|es| - 1]);
      StepRoutes(m, es[|es| - 1]);
    }
  }

  function Steps(m: Mux, es: seq<Event>): Mux {
    if es == [] then m else Step(Steps(m, es[..|es| - 1]), es[|es| - 1])
  }

  /** From any state in order, not only from the first. */
  lemma {:induction false} StepsKeep(m: Mux, es: seq<Event>)
    requires Inv(m)
    ensures Inv(Steps(m, es))
  {
    if es != [] {
      StepsKeep(m, es[..|es| - 1]);
      StepOwned(Steps(m, es[..|es| - 1]), es[|es| - 1]);
      StepRoutes(Steps(m, es[..|es| - 1]), es[|es| - 1]);
    }
  }

  // ---- In the program's own terms -----------------------------------------------------------------

  /** A variable or channel slot that can hold a buffer. */
  datatype Spot = ReaderSpot | ChannelSpot(c: nat, over: bool, i: nat) | CallSpot(t: nat)

  predicate Refers(m: Mux, sp: Spot, id: nat) {
    match sp
    case ReaderSpot => m.reader != Idle && m.reader.loan == id
    case ChannelSpot(c, over, i) => c < |m.conns| && i < |Chan(m.conns[c], over)| && Chan(m.conns[c], over)[i].loan == id
    case CallSpot(t) => t in m.calls && m.calls[t].slice.loan == id
  }

  lemma SpotIsPlace(m: Mux, sp: Spot, id: nat)
    requires Owned(m) && Refers(m, sp, id)
    ensures id < |m.loans|
    ensures m.loans[id].place == match sp
              case ReaderSpot => WithReader
              case ChannelSpot(c, over, i) => InChannel(c, over)
              case CallSpot(t) => WithRead(t)
  {
    if sp.ChannelSpot? {
      assert ChanOk(m.loans, Chan(m.conns[sp.c], sp.over), InChannel(sp.c, sp.over), -1);
    }
  }

  /** In every reachable state a buffer is in exactly one place until its recycler has run, which
      happens at most once, and in none after; and what Reads got of its packet is a prefix of it. */
  lemma BufferOwnership(es: seq<Event>, id: nat)
    requires id < |Run(es).loans|
    ensures var m := Run(es);
            && m.loans[id].fins <= 1
            && (m.loans[id].fins == 0 <==> exists sp :: Refers(m, sp, id))
            && (forall sp, sq :: Refers(m, sp, id) && Refers(m, sq, id) ==> sp == sq)
            && m.loans[id].handed <= m.loans[id].data
  {
    var m := Run(es);
    EveryRunKeeps(es);
    assert Placed(m.loans[id], id, m.conns, m.reader, m.calls) && Accounted(m.loans[id]);
    forall sp | Refers(m, sp, id)
      ensures !m.loans[id].place.Recycled?
    {
      SpotIsPlace(m, sp, id);
    }
    forall sp, sq | Refers(m, sp, id) && Refers(m, sq, id)
      ensures sp == sq
    {
      SpotIsPlace(m, sp, id);
      SpotIsPlace(m, sq, id);
      if sp.ChannelSpot? {
        assert ChanOk(m.loans, Chan(m.conns[sp.c], sp.over), InChannel(sp.c, sp.over), -1);
      }
    }
    if m.loans[id].fins == 0 {
      SomeSpot(m, id);
    }
  }

  lemma SomeSpot(m: Mux, id: nat)
    requires id < |m.loans| && Placed(m.loans[id], id, m.conns, m.reader, m.calls) && !m.loans[id].place.Recycled?
    ensures exists sp :: Refers(m, sp, id)
  {
    match m.loans[id].place
    case WithReader => assert Refers(m, ReaderSpot, id);
    case InChannel(c, over) =>
      var i :| 0 <= i < |Chan(m.conns[c], over)| && Chan(m.conns[c], over)[i].loan == id;
      assert Refers(m, ChannelSpot(c, over, i), id);
    case WithRead(t) => assert Refers(m, CallSpot(t), id);
  }

  /** The part of a packet that a spot holds. */
  predicate HoldsSlice(m: Mux, sp: Spot, s: Slice) {
    match sp
    case ReaderSpot => m.reader != Idle && s == Slice(m.reader.loan, 0)
    case ChannelSpot(c, over, i) => c < |m.conns| && i < |Chan(m.conns[c], over)| && Chan(m.conns[c], over)[i] == s
    case CallSpot(t) => t in m.calls && m.calls[t].slice == s
  }

  /** Conservation: a slice with the reader, still queued or being read starts exactly where the bytes handed out
      end, so handed-out, held and dropped bytes make up the packet. */
  lemma BytesConserved(es: seq<Event>, sp: Spot, s: Slice)
    requires HoldsSlice(Run(es), sp, s)
    ensures var m := Run(es);
            && s.loan < |m.loans| && s.off <= |m.loans[s.loan].data|
            && m.loans[s.loan].handed + m.loans[s.loan].data[s.off..] == m.loans[s.loan].data
  {
    EveryRunKeeps(es);
    HeldContinues(Run(es), sp, s);
  }

  lemma HeldContinues(m: Mux, sp: Spot, s: Slice)
    requires Owned(m) && HoldsSlice(m, sp, s)
    ensures s.loan < |m.loans| && s.off <= |m.loans[s.loan].data|
    ensures m.loans[s.loan].handed + m.loans[s.loan].data[s.off..] == m.loans[s.loan].data
  {
    match sp {
      case ReaderSpot => ReaderFacts(m);
      case ChannelSpot(c, over, i) => SliceContinues(m, c, over, i);
      case CallSpot(t) => CallFacts(m, t);
    }
    PrefixRest(m.loans[s.loan].handed, m.loans[s.loan].data);
  }

  lemma PrefixRest(a: Bytes, b: Bytes)
    requires a <= b
    ensures a + b[|a|..] == b
  {
  }

  lemma ReaderFacts(m: Mux)
    requires Owned(m) && m.reader != Idle
    ensures m.reader.loan < |m.loans| && m.loans[m.reader.loan].handed == []
  {
    assert Placed(m.loans[m.reader.loan], m.reader.loan, m.conns, m.reader, m.calls);
  }

  lemma SliceContinues(m: Mux, c: nat, over: bool, i: nat)
    requires Owned(m) && c < |m.conns| && i < |Chan(m.conns[c], over)|
    ensures var s := Chan(m.conns[c], over)[i];
            s.loan < |m.loans| && s.off == |m.loans[s.loan].handed| && m.loans[s.loan].handed <= m.loans[s.loan].data
  {
    assert ChanOk(m.loans, Chan(m.conns[c], over), InChannel(c, over), -1);
  }

  /** In every run, each io() returns the next bytes of its packet, as many as fit, and touches no other. */
  lemma ReadsInOrder(es: seq<Event>, call: nat, pick: bool)
    requires call in Run(es).calls
    ensures var m := Run(es);
            var r := m.calls[call];
            && r.slice.loan < |m.loans| && r.conn < |m.conns| && r.slice.off <= |m.loans[r.slice.loan].data|
            && var (after, piece) := Copied(m, call, pick);
               && Run(es + [Io(call, pick)]) == after
               && |after.loans| == |m.loans|
               && HandsNext(m.loans[r.slice.loan], after.loans[r.slice.loan], piece, r.room)
               && forall j :: 0 <= j < |m.loans| && j != r.slice.loan ==> after.loans[j] == m.loans[j]
  {
    var m := Run(es);
    EveryRunKeeps(es);
    CallFacts(m, call);
    IoHandsNext(m, call, pick);
    IoStep(m, call, pick, Copied(m, call, pick).0);
    RunNext(es, Io(call, pick));
  }

  lemma RunNext(es: seq<Event>, e: Event)
    ensures Run(es + [e]) == Step(Run(es), e)
  {
    assert (es + [e])[..|es + [e]| - 1] == es;
  }
}
