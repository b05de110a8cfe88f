/** The gateway as the object that queries, stops and clears update in place. */
module AlgGatewayCell {
  import opened AlgAddr
  import opened AlgAnswer
  import opened AlgGateway
  import opened AlgInvariant

  class DnsGateway {
    const hash: string -> bv64
    var alg: map<string, AlgEntry>
    var xlat: map<Addr, nat>
    var ptr: map<Addr, seq<nat>>
    var heap: map<nat, Answer>
    var next: nat

    constructor (hash: string -> bv64)
      ensures this.hash == hash && State() == EMPTY
    {
      this.hash := hash;
      alg, xlat, ptr, heap, next := map[], map[], map[], map[], 0;
    }

    function State(): Gateway
      reads this
    {
      Gateway(alg, xlat, ptr, heap, next)
    }

    /** The loop over what an answer shows: file the answer under each address once. */
    method Index(ips: set<Addr>, id: nat)
      modifies this`ptr
      ensures ptr == PtrAdded(old(ptr), ips, id)
    {
      var todo := ips;
      while todo != {}
        invariant todo <= ips
        invariant ptr == PtrAdded(old(ptr), ips - todo, id)
        decreases todo
      {
        var ip :| ip in todo;
        PtrAddedAt(old(ptr), ips - todo, id, ip);
        var existing := PtrAt(ptr, ip);
        if id !in existing {
          ptr := ptr[ip := existing + [id]];
        } else {
          ptr := ptr[ip := existing];
        }
        todo := todo - {ip};
      }
      assert ips - todo == ips;
    }

    /** ptrRemoveLocked for each address the answer shows. */
    method Unindex(ips: set<Addr>, id: nat)
      modifies this`ptr
      ensures ptr == PtrRemoved(old(ptr), ips, id)
    {
      var todo := ips;
      while todo != {}
        invariant todo <= ips
        invariant ptr == PtrRemoved(old(ptr), ips - todo, id)
        decreases todo
      {
        var ip :| ip in todo;
        if ip in ptr {
          var out := Erased(ptr[ip], id);
          if out == [] {
            ptr := ptr - {ip};
          } else {
            ptr := ptr[ip := out];
          }
        }
        todo := todo - {ip};
      }
      assert ips - todo == ips;
    }

    /** take4Locked and take6Locked. */
    /** The first candidate address that is not in use. */
    method FindFree(k: string, f: Family) returns (ip: Addr)
      ensures ip == Probe(hash, xlat, k, f, 0)
    {
      var i := 0;
      while i < MAX_ITER
        invariant i <= MAX_ITER
        invariant Probe(hash, xlat, k, f, 0) == Probe(hash, xlat, k, f, i)
      {
        var candidate := Candidate(hash, k, f, i);
        if candidate !in xlat {
          return candidate;
        }
        i := i + 1;
      }
      ip := NoAddr;
    }

    method TakeAddr(q: string, f: Family, now: nat) returns (ip: Addr)
      modifies this
      ensures (State(), ip) == Take(hash, old(State()), q, f, now)
    {
      var k := Key(q, f);
      if k in alg && alg[k].id in heap {
        var e := alg[k];
        if Is(e.algip, f) {
          var a := heap[e.id];
          heap := heap[e.id := a.(ttl := Extended(a.ttl, now))];
          return e.algip;
        }
        alg := alg - {k};
        xlat := xlat - {e.algip};
        Unindex(Visible(heap[e.id].ips, now), e.id);
      }
      ip := FindFree(k, f);
    }

    /** One turn of registerLocked's loop over the alg addresses. */
    method RegisterFor(k: string, ip: Addr, a: Answer, seenIps: set<string>, seenDoms: set<string>, now: nat)
      modifies this
      ensures State() == RegisterOne(old(State()), k, ip, a, seenIps, seenDoms, now)
    {
      if k in alg && alg[k].id in heap {
        var id := alg[k].id;
        heap := heap[id := MergedAnswer(heap[id], a, seenIps, seenDoms, now)];
      } else {
        alg := alg[k := AlgEntry(ip, next)];
        xlat := xlat[ip := next];
        heap := heap[next := a];
        next := next + 1;
      }
      Index(Visible(heap[alg[k].id].ips, now), alg[k].id);
    }

    /** registerLocked */
    method RegisterReply(m: Reply, algip4: Addr, algip6: Addr, sw: Sweeps, now: nat) returns (ok: bool)
      modifies this
      ensures (State(), ok) == Register(old(State()), m, algip4, algip6, sw, now)
    {
      if NoTid(m.tid) || (algip4 == NoAddr && algip6 == NoAddr) {
        return false;
      }
      if algip4.V4? {
        RegisterFor(Key(m.q, Four), algip4, NewAnswer(m, Four, now), sw.ips4, sw.doms4, now);
      }
      if algip6.V6? {
        RegisterFor(Key(m.q, Six), algip6, NewAnswer(m, Six, now), sw.ips6, sw.doms6, now);
      }
      ok := algip4.V4? || algip6.V6?;
    }

    /** The locked section of a query; it keeps the tables in agreement. */
    method Query(m: Reply, sw: Sweeps, now: nat)
      modifies this
      ensures State() == Answered(hash, old(State()), m, sw, now)
      ensures Inv(old(State()), now) ==> Inv(State(), now)
    {
      ghost var s0 := State();
      var ip4, ip6 := NoAddr, NoAddr;
      if Inv(s0, now) {
        AnsweredInv(hash, s0, m, sw, now);
      }
      if m.a6 != [] {
        ip6 := TakeAddr(m.q, Six, now);
        if ip6 == NoAddr {
          return;
        }
      }
      if m.a4 != [] {
        ip4 := TakeAddr(m.q, Four, now);
        if ip4 == NoAddr {
          return;
        }
      }
      assert Picked(State(), ip4, ip6, true) == PickForRecords(hash, s0, m, now);
      if m.h4 != [] && ip4 == NoAddr {
        ip4 := TakeAddr(m.q, Four, now);
        if ip4 == NoAddr {
          return;
        }
      }
      if m.h6 != [] && ip6 == NoAddr {
        ip6 := TakeAddr(m.q, Six, now);
        if ip6 == NoAddr {
          return;
        }
      }
      assert Picked(State(), ip4, ip6, true) == Pick(hash, s0, m, now);
      if !m.substOk {
        return;
      }
      var ok := RegisterReply(m, ip4, ip6, sw, now);
    }

    /** stop: forgets every translation. */
    method Stop(now: nat)
      modifies this
      ensures State() == Step(hash, old(State()), Clear(now)) && Inv(State(), now)
    {
      alg, xlat, ptr, heap := map[], map[], map[], map[];
    }
  }
}
