/**
 The UDP muxer and its demultiplexed connections, as steps: one channel operation or one region
 under the route lock each. A loan is one lease of a pooled receive buffer; its recycler must run
 at most once. Remote addresses are numbers, connections are numbered in order of creation.
 */
module UdpDemux {
  import opened Common

  const MAX_IN_FLIGHT: nat := 512
  const MAX_OVERFLOW: nat := 128

  /** Where the one reference to a loan is. */
  datatype Place = WithReader | InChannel(conn: nat, over: bool) | WithRead(call: nat) | Recycled

  /** A leased buffer: the packet in it, what Reads have handed out of it, how often it was recycled. */
  datatype Loan = Loan(data: Bytes, handed: Bytes, fins: nat, place: Place)

  /** A slice in a channel: the part of the loan's packet from `off` on. */
  datatype Slice = Slice(loan: nat, off: nat)

  datatype DemuxConn = DemuxConn(key: nat, inCh: seq<Slice>, overCh: seq<Slice>, closed: bool)

  /** The readers loop: between packets, holding a buffer, or holding a packet for a connection. */
  datatype Reader = Idle | Holding(loan: nat) | Dispatching(loan: nat, conn: nat)

  /** A Read that has received a slice and has `room` bytes to fill. */
  datatype ReadCall = ReadCall(conn: nat, slice: Slice, room: nat)

  datatype Mux = Mux(
    loans: seq<Loan>,
    conns: seq<DemuxConn>,
    routes: map<nat, nat>,
    watched: set<nat>,
    stopped: bool,
    reader: Reader,
    calls: map<nat, ReadCall>)

  const START := Mux([], [], map[], {}, false, Idle, map[])

  function Chan(c: DemuxConn, over: bool): seq<Slice> {
    if over then c.overCh else c.inCh
  }

  function WithChan(c: DemuxConn, over: bool, q: seq<Slice>): DemuxConn {
    if over then c.(overCh := q) else c.(inCh := q)
  }

  function Room(over: bool): nat {
    if over then MAX_OVERFLOW else MAX_IN_FLIGHT
  }

  /** A select between sending and the close signal: `pick` decides when both are ready. */
  predicate Sends(c: DemuxConn, over: bool, pick: bool) {
    |Chan(c, over)| < Room(over) && (!c.closed || pick)
  }

  // ---- Moving a loan --------------------------------------------------------------------------

  function Fin(m: Mux, id: nat): Mux
    requires id < |m.loans|
  {
    var l := m.loans[id];
    m.(loans := m.loans[id := l.(fins := l.fins + 1, place := Recycled)])
  }

  function Push(m: Mux, c: nat, over: bool, s: Slice): Mux
    requires c < |m.conns| && s.loan < |m.loans|
  {
    m.(conns := m.conns[c := WithChan(m.conns[c], over, Chan(m.conns[c], over) + [s])],
       loans := m.loans[s.loan := m.loans[s.loan].(place := InChannel(c, over))])
  }

  /** Takes the oldest slice of a channel. */
  function Pop(m: Mux, c: nat, over: bool): Mux
    requires c < |m.conns| && Chan(m.conns[c], over) != []
  {
    m.(conns := m.conns[c := WithChan(m.conns[c], over, Chan(m.conns[c], over)[1..])])
  }

  // ---- Steps ------------------------------------------------------------------------------------

  datatype Event =
    | Alloc                                              // readers: lease a buffer
    | ReadFailed                                         // readers: error, timeout or empty packet
    | ReadPacket(data: Bytes, from: nat, accepted: bool) // readers: a packet, then route()
    | Dispatch(pick: bool)                               // readers: hand the packet to its connection
    | RouteOut(to: nat, accepted: bool)                  // associate: route() for an outgoing flow
    | Receive(call: nat, c: nat, over: bool, room: nat)  // Read: take a slice
    | Io(call: nat, pick: bool)                          // Read: copy, keep or drop the rest, return
    | Close(c: nat)                                      // Close: signal
    | DrainOne(c: nat, over: bool)                       // Close: recycle one queued slice
    | Unroute(c: nat)                                    // awaiters: the connection has closed
    | Stop                                               // stop and drain

  /** route(): the connection for `to`, made and watched if there is none. A stopped muxer may refuse. */
  function Routed(m: Mux, to: nat, accepted: bool): (r: (Mux, int))
    ensures r.0.loans == m.loans && r.0.reader == m.reader && r.0.calls == m.calls
  {
    if to in m.routes then (m, m.routes[to])
    else
      var c := |m.conns|;
      if m.stopped && !accepted then (m.(conns := m.conns + [DemuxConn(to, [], [], true)]), -1)
      else (m.(conns := m.conns + [DemuxConn(to, [], [], false)], routes := m.routes[to := c], watched := m.watched + {c}), c)
  }

  function Received(m: Mux, call: nat, c: nat, over: bool, room: nat): Mux
    requires c < |m.conns| && Chan(m.conns[c], over) != [] && Chan(m.conns[c], over)[0].loan < |m.loans|
  {
    var s := Chan(m.conns[c], over)[0];
    var p := Pop(m, c, over);
    p.(calls := p.calls[call := ReadCall(c, s, room)],
       loans := p.loans[s.loan := p.loans[s.loan].(place := WithRead(call))])
  }

  /** The end of io(): the loan, now `l`, is queued again from `off` on, or recycled. */
  function Served(m: Mux, call: nat, c: nat, id: nat, l: Loan, off: nat, keep: bool): Mux
    requires c < |m.conns| && id < |m.loans|
  {
    var h := m.(calls := m.calls - {call}, loans := m.loans[id := l]);
    if keep then Push(h, c, true, Slice(id, off)) else Fin(h, id)
  }

  /** io(): what the Read returns, and the state it leaves. */
  function Copied(m: Mux, call: nat, pick: bool): (Mux, Bytes)
    requires call in m.calls && m.calls[call].slice.loan < |m.loans| && m.calls[call].conn < |m.conns|
    requires m.calls[call].slice.off <= |m.loans[m.calls[call].slice.loan].data|
  {
    var r := m.calls[call];
    var l := m.loans[r.slice.loan];
    var n := Min(r.room, |l.data| - r.slice.off);
    var piece := l.data[r.slice.off..r.slice.off + n];
    var keep := r.slice.off + n < |l.data| && Sends(m.conns[r.conn], true, pick);
    (Served(m, call, r.conn, r.slice.loan, l.(handed := l.handed + piece), r.slice.off + n, keep), piece)
  }

  function Dispatched(m: Mux, id: nat, c: nat, pick: bool): Mux
    requires id < |m.loans| && c < |m.conns|
  {
    var h := m.(reader := Idle);
    if Sends(m.conns[c], false, pick) then Push(h, c, false, Slice(id, 0)) else Fin(h, id)
  }

  function ClosedIf(c: DemuxConn, yes: bool): DemuxConn {
    if yes then c.(closed := true) else c
  }

  function Step(m: Mux, e: Event): Mux {
    match e
    case Alloc =>
      if m.reader != Idle then m
      else m.(loans := m.loans + [Loan([], [], 0, WithReader)], reader := Holding(|m.loans|))
    case ReadFailed =>
      if !m.reader.Holding? || m.reader.loan >= |m.loans| then m else Fin(m.(reader := Idle), m.reader.loan)
    case ReadPacket(data, from, accepted) =>
      if !m.reader.Holding? || m.reader.loan >= |m.loans| then m
      else
        var id := m.reader.loan;
        var (r, c) := Routed(m.(loans := m.loans[id := m.loans[id].(data := data)]), from, accepted);
        if c < 0 then Fin(r.(reader := Idle), id) else r.(reader := Dispatching(id, c))
    case Dispatch(pick) =>
      if !m.reader.Dispatching? || m.reader.loan >= |m.loans| || m.reader.conn >= |m.conns| then m
      else Dispatched(m, m.reader.loan, m.reader.conn, pick)
    case RouteOut(to, accepted) => Routed(m, to, accepted).0
    case Receive(call, c, over, room) =>
      if call in m.calls || c >= |m.conns| || Chan(m.conns[c], over) == [] || Chan(m.conns[c], over)[0].loan >= |m.loans| then m
      else Received(m, call, c, over, room)
    case Io(call, pick) =>
      if call !in m.calls || m.calls[call].slice.loan >= |m.loans| || m.calls[call].conn >= |m.conns|
         || m.calls[call].slice.off > |m.loans[m.calls[call].slice.loan].data| then m
      else Copied(m, call, pick).0
    case Close(c) => if c >= |m.conns| then m else m.(conns := m.conns[c := ClosedIf(m.conns[c], true)])
    case DrainOne(c, over) =>
      if c >= |m.conns| || !m.conns[c].closed || Chan(m.conns[c], over) == [] || Chan(m.conns[c], over)[0].loan >= |m.loans| then m
      else Fin(Pop(m, c, over), Chan(m.conns[c], over)[0].loan)
    case Unroute(c) =>
      if c >= |m.conns| || c !in m.watched || !m.conns[c].closed then m
      else m.(routes := m.routes - {m.conns[c].key}, watched := m.watched - {c})
    case Stop =>
      m.(stopped := true, routes := map[],
         conns := seq(|m.conns|, i requires 0 <= i < |m.conns| => ClosedIf(m.conns[i], i in m.routes.Values)))
  }

  function Run(es: seq<Event>): Mux {
    if es == [] then START else Step(Run(es[..|es| - 1]), es[|es| - 1])
  }
}
