/** Undoing an alg address: what comes back was registered for that one domain and family, and
    what was registered keeps coming back for as long as it was promised. */
module AlgUndo {
  import opened Slices
  import opened ExpStore
  import opened AlgAddr
  import opened AlgAnswer
  import opened AlgGateway
  import opened AlgInvariant

  // ---- X ------------------------------------------------------------------------------------

  /** What xLocked consults besides the tables: fake DNS addresses, the NAT64 undo, the gateway's
      own uid, and the transports that block everything. */
  datatype Config = Config(fake: set<Addr>, x64: Addr -> Addr, myUid: string, blocksAll: string -> bool)

  /** The real addresses taken from one answer. */
  function RealFrom(p: Ips, uid: string, tids: seq<string>, alive: bool, now: nat): set<Addr> {
    if tids == [] then RealIps(p, uid, alive, now)
    else set t, x | t in tids && x in RealIpsFor(p, t, alive, now) :: x
  }

  function UndoNat64(x64: Addr -> Addr, ips: set<Addr>): set<Addr> {
    set ip | ip in ips && Unmap(ip).V6? && x64(Unmap(ip)) != NoAddr && !IsUnspecified(x64(Unmap(ip))) :: Unmap(x64(Unmap(ip)))
  }

  predicate Skips(cfg: Config, uid: string, tids: seq<string>) {
    uid == cfg.myUid || exists t :: t in tids && cfg.blocksAll(t)
  }

  function IpsOf(s: Gateway, id: nat): Ips {
    if id in s.heap then s.heap[id].ips else Ips(Store(map[], map[], 0), map[])
  }

  /** The real addresses behind `ip` by way of `ptr`, from every answer that shows it. */
  function FoundByPtr(s: Gateway, ip: Addr, uid: string, tids: seq<string>, alive: bool, now: nat): set<Addr> {
    set id, x | id in PtrAt(s.ptr, ip) && x in RealFrom(IpsOf(s, id), uid, tids, alive, now) :: x
  }

  /** What X answers, given what the tables hold for `ip`. */
  function Settled(cfg: Config, ip: Addr, found: set<Addr>, inTables: bool): set<Addr> {
    var unnated := UndoNat64(cfg.x64, if found == {} then {ip} else found);
    if unnated != {} then unnated
    else if found != {} then found
    else if inTables then {}
    else {ip}
  }

  /** xLocked: the addresses behind `maybeAlg`, and whether it was an alg address. */
  function X(cfg: Config, s: Gateway, maybeAlg: Addr, usestale: bool, uid: string, tids: seq<string>, now: nat): (set<Addr>, bool) {
    var ip := Unmap(maybeAlg);
    if ip in cfg.fake then ({maybeAlg}, false)
    else if Skips(cfg, uid, tids) then (Settled(cfg, ip, {}, false), false)
    else if ip in s.xlat then (Settled(cfg, ip, RealFrom(IpsOf(s, s.xlat[ip]), uid, tids, !usestale, now), true), true)
    else if PtrAt(s.ptr, ip) != [] then (Settled(cfg, ip, FoundByPtr(s, ip, uid, tids, !usestale, now), true), false)
    else (Settled(cfg, ip, {}, false), false)
  }

  // ---- What was registered --------------------------------------------------------------------

  function PickedIp(p: Picked, f: Family): Addr {
    match f
    case Four => p.ip4
    case Six => p.ip6
  }

  /** A reply that ends up registered for family `f`. */
  predicate Registers(hash: string -> bv64, s: Gateway, m: Reply, f: Family, now: nat) {
    var p := Pick(hash, s, m, now);
    p.ok && m.substOk && !NoTid(m.tid) && PickedIp(p, f) != NoAddr
  }

  /** Every real address registered for domain `q` and family `f` since the gateway was last cleared. */
  function Registered(hash: string -> bv64, es: seq<Event>, q: string, f: Family): set<Addr> {
    if es == [] then {} else
    var init, e := es[..|es| - 1], es[|es| - 1];
    match e
    case Clear(_) => {}
    case Reply_(m, _, now) =>
      Registered(hash, init, q, f)
      + News(m, q, f, Registers(hash, Run(hash, init), m, f, now))
    case _ => Registered(hash, init, q, f)
  }

  // ---- Soundness ----------------------------------------------------------------------------

  ghost predicate EntriesWithin<T>(m: map<string, Entry<T>>, all: set<T>) {
    forall k :: k in m ==> ToSet(m[k].items) <= all
  }

  /** Whatever the store holds, live or not, comes from `all`. */
  ghost predicate StoreWithin<T>(s: Store<T>, all: set<T>) {
    EntriesWithin(s.pri, all) && EntriesWithin(s.past, all)
  }

  lemma WithinAt<T>(m: map<string, Entry<T>>, all: set<T>, k: string)
    requires EntriesWithin(m, all)
    ensures ToSet(At(m, k).items) <= all
  {
  }

  lemma JoinWithin<T>(pv: Entry<T>, qv: Entry<T>, now: nat, all: set<T>)
    requires ToSet(pv.items) <= all && ToSet(qv.items) <= all
    ensures ToSet(Joined(pv, qv, now).items) <= all
  {
    if Fresh(pv, now) {
      JoinedItems(pv, qv, now);
      assert ToSet(Alive(qv, now)) <= ToSet(qv.items);
    }
  }

  lemma RelegateWithin<T>(cur: Entry<T>, v: Entry<T>, now: nat, all: set<T>)
    requires ToSet(cur.items) <= all && ToSet(v.items) <= all
    ensures ToSet(Relegated(cur, v, now).items) <= all
  {
    UniqUnion(cur.items, v.items);
    UniqUnion([], v.items);
    assert [] + v.items == v.items;
  }

  lemma MergeWithin<T>(s: Store<T>, q: map<string, Entry<T>>, seen: set<string>, now: nat, all: set<T>)
    requires StoreWithin(s, all) && EntriesWithin(q, all)
    ensures StoreWithin(Merged(s, q, seen, now), all)
  {
    var pri, past := MergedPri(s.pri, q, now), MergedPast(s, q, now);
    forall k | k in pri
      ensures ToSet(pri[k].items) <= all
    {
      WithinAt(s.pri, all, k);
      if k in q {
        JoinWithin(At(s.pri, k), q[k], now, all);
      }
    }
    forall k | k in past
      ensures ToSet(past[k].items) <= all
    {
      MergedAt(s, q, now, k);
      WithinAt(s.past, all, k);
      WithinAt(s.pri, all, k);
      WithinAt(q, all, k);
      RelegateWithin(At(s.past, k), Displaced(At(s.pri, k), At(q, k), now), now, all);
    }
  }

  lemma RemoveWithin<T>(s: Store<T>, ks: set<string>, sweep: bool, seen: set<string>, now: nat, all: set<T>)
    requires StoreWithin(s, all)
    ensures StoreWithin(Removed(s, ks, sweep, seen, now), all)
  {
    var e := Expired(s, ks, now);
    forall k | k in e.past
      ensures ToSet(e.past[k].items) <= all
    {
      ExpiredAt(s, ks, now, k);
      WithinAt(s.past, all, k);
      WithinAt(s.pri, all, k);
      if Expires(s, ks, k, now) {
        RelegateWithin(At(s.past, k), s.pri[k].(ttl := now), now, all);
      }
    }
    assert EntriesWithin(e.pri, all);
  }

  /** Real addresses filed under a key's answer all come from `all`. */
  ghost predicate Sourced(s: Gateway, k: string, all: set<Addr>) {
    Known(s, k) ==> StoreWithin(s.heap[s.alg[k].id].ips.store, all)
  }

  lemma SourcedWiden(s: Gateway, t: Gateway, k: string, all: set<Addr>, more: set<Addr>)
    requires Sourced(s, k, all) && all <= more
    requires Known(t, k) ==> Known(s, k) && t.heap[t.alg[k].id].ips == s.heap[s.alg[k].id].ips
    ensures Sourced(t, k, more)
  {
  }

  /** Registering under key `k` touches no other key's answer. */
  lemma RegisterOneElsewhere(s: Gateway, q: string, f: Family, ip: Addr, a: Answer, seenIps: set<string>, seenDoms: set<string>, now: nat, l: string)
    requires Inv(s, now) && Taken(s.alg, s.xlat, q, f, ip) && l != Key(q, f)
    ensures var t := RegisterOne(s, Key(q, f), ip, a, seenIps, seenDoms, now);
            && (l in t.alg <==> l in s.alg)
            && (Known(t, l) <==> Known(s, l))
            && (l in s.alg ==> t.alg[l] == s.alg[l])
            && (Known(s, l) ==> t.heap[t.alg[l].id] == s.heap[s.alg[l].id])
  {
    var k := Key(q, f);
    var t, u := Filed(s, k, ip, a, seenIps, seenDoms, now), RegisterOne(s, k, ip, a, seenIps, seenDoms, now);
    FiledTables(s, q, f, ip, a, seenIps, seenDoms, now);
    FiledAlone(s, k, ip, a, seenIps, seenDoms, now, t, u, l);
    FiledElsewhere(s, t, k, ip, l);
    KnownAlike(t, u, l);
  }

  lemma KnownAlike(t: Gateway, u: Gateway, l: string)
    requires u.alg == t.alg && u.heap == t.heap
    ensures Known(u, l) <==> Known(t, l)
    ensures Known(t, l) ==> u.heap[u.alg[l].id] == t.heap[t.alg[l].id]
  {
  }

  lemma FiledAlone(s: Gateway, k: string, ip: Addr, a: Answer, seenIps: set<string>, seenDoms: set<string>, now: nat,
                   t: Gateway, u: Gateway, l: string)
    requires t == Filed(s, k, ip, a, seenIps, seenDoms, now) && u == RegisterOne(s, k, ip, a, seenIps, seenDoms, now)
    ensures u.alg == t.alg && u.heap == t.heap
    ensures l != k ==> (l in t.alg <==> l in s.alg) && (l in s.alg ==> t.alg[l] == s.alg[l])
  {
  }

  /** What filing under `k` leaves of another key. */
  lemma FiledElsewhere(s: Gateway, t: Gateway, k: string, ip: Addr, l: string)
    requires Bijective(s.alg, s.xlat) && Owned(s.xlat, s.heap.Keys, s.next) && Bijective(t.alg, t.xlat)
    requires FiledFor(s, t, k, ip) && l != k && (l in t.alg <==> l in s.alg) && (l in s.alg ==> t.alg[l] == s.alg[l])
    ensures Known(t, l) <==> Known(s, l)
    ensures Known(s, l) ==> t.heap[t.alg[l].id] == s.heap[s.alg[l].id]
  {
    if l in s.alg {
      assert s.xlat[s.alg[l].algip] in s.heap.Keys;
    }
  }

  /** What the answer under `k` holds after registering: the new one, or the old with the new merged in. */
  lemma RegisterOneHere(s: Gateway, q: string, f: Family, ip: Addr, a: Answer, seenIps: set<string>, seenDoms: set<string>, now: nat)
    requires Inv(s, now) && Taken(s.alg, s.xlat, q, f, ip)
    ensures var t := RegisterOne(s, Key(q, f), ip, a, seenIps, seenDoms, now);
            && Known(t, Key(q, f)) && t.alg[Key(q, f)].algip == ip
            && t.heap[t.alg[Key(q, f)].id].ips
               == if Known(s, Key(q, f)) then MergedIps(s.heap[s.alg[Key(q, f)].id].ips, a.ips, seenIps, now) else a.ips
  {
    FiledTables(s, q, f, ip, a, seenIps, seenDoms, now);
  }

  lemma NewIpsWithin(m: Reply, f: Family, now: nat)
    ensures StoreWithin(NewAnswer(m, f, now).ips.store, ToSet(Only(Real(m), f)))
  {
  }

  lemma RegisterOneSourced(s: Gateway, m: Reply, f: Family, ip: Addr, seenIps: set<string>, seenDoms: set<string>, now: nat, all: set<Addr>)
    requires Inv(s, now) && Taken(s.alg, s.xlat, m.q, f, ip)
    requires Sourced(s, Key(m.q, f), all)
    ensures Sourced(RegisterOne(s, Key(m.q, f), ip, NewAnswer(m, f, now), seenIps, seenDoms, now), Key(m.q, f),
                    all + ToSet(Only(Real(m), f)))
  {
    var k, a := Key(m.q, f), NewAnswer(m, f, now);
    var more := all + ToSet(Only(Real(m), f));
    RegisterOneHere(s, m.q, f, ip, a, seenIps, seenDoms, now);
    NewIpsWithin(m, f, now);
    assert EntriesWithin(a.ips.store.pri, more);
    if Known(s, k) {
      MergeWithin(s.heap[s.alg[k].id].ips.store, a.ips.store.pri, seenIps, now, more);
    }
  }

  predicate Idle(hash: string -> bv64, s: Gateway, m: Reply, now: nat) {
    !Pick(hash, s, m, now).ok || !m.substOk || NoTid(m.tid)
  }

  lemma IdleReply(hash: string -> bv64, s: Gateway, m: Reply, sw: Sweeps, now: nat)
    requires Inv(s, now) && Idle(hash, s, m, now)
    ensures SameButTtl(s, Answered(hash, s, m, sw, now))
  {
    PickReady(hash, s, m, now);
  }

  function News(m: Reply, q: string, f: Family, registered: bool): set<Addr> {
    if m.q == q && registered then ToSet(Only(Real(m), f)) else {}
  }

  /** From `t`, the IPv4 registration leads to `u`, and the IPv6 one from there to `v`. */
  ghost predicate Registrations(m: Reply, ip4: Addr, ip6: Addr, sw: Sweeps, now: nat, t: Gateway, u: Gateway, v: Gateway) {
    && Inv(t, now) && Inv(u, now)
    && (ip4 == NoAddr ==> u == t)
    && (ip4 != NoAddr ==>
          && Taken(t.alg, t.xlat, m.q, Four, ip4)
          && u == RegisterOne(t, Key(m.q, Four), ip4, NewAnswer(m, Four, now), sw.ips4, sw.doms4, now))
    && (ip6 == NoAddr ==> v == u)
    && (ip6 != NoAddr ==>
          && Taken(u.alg, u.xlat, m.q, Six, ip6)
          && v == RegisterOne(u, Key(m.q, Six), ip6, NewAnswer(m, Six, now), sw.ips6, sw.doms6, now))
  }

  lemma RegisterSplit(hash: string -> bv64, s: Gateway, m: Reply, sw: Sweeps, now: nat)
      returns (t: Gateway, u: Gateway)
    requires Inv(s, now) && !Idle(hash, s, m, now)
    ensures var p := Pick(hash, s, m, now);
            SameButTtl(s, t) && Registrations(m, p.ip4, p.ip6, sw, now, t, u, Answered(hash, s, m, sw, now))
  {
    PickReady(hash, s, m, now);
    var p := Pick(hash, s, m, now);
    t := p.s;
    u := t;
    if p.ip4 != NoAddr {
      var a := NewAnswer(m, Four, now);
      RegisterOneInv(t, m.q, Four, p.ip4, a, sw.ips4, sw.doms4, now);
      u := RegisterOne(t, Key(m.q, Four), p.ip4, a, sw.ips4, sw.doms4, now);
      if p.ip6 != NoAddr {
        RegisterOneFrame(t, m.q, p.ip4, p.ip6, a, sw.ips4, sw.doms4, now);
      }
    }
  }

  lemma OneSourced(s: Gateway, m: Reply, g: Family, ip: Addr, seenIps: set<string>, seenDoms: set<string>, now: nat,
                   q: string, f: Family, all: set<Addr>)
    requires Inv(s, now) && Taken(s.alg, s.xlat, m.q, g, ip)
    requires Sourced(s, Key(q, f), all)
    ensures Sourced(RegisterOne(s, Key(m.q, g), ip, NewAnswer(m, g, now), seenIps, seenDoms, now), Key(q, f),
                    all + if m.q == q && f == g then ToSet(Only(Real(m), f)) else {})
  {
    KeyInjective(q, f, m.q, g);
    if m.q == q && f == g {
      RegisterOneSourced(s, m, g, ip, seenIps, seenDoms, now, all);
    } else {
      RegisterOneElsewhere(s, m.q, g, ip, NewAnswer(m, g, now), seenIps, seenDoms, now, Key(q, f));
    }
  }

  lemma RegistrationsSourced(m: Reply, ip4: Addr, ip6: Addr, sw: Sweeps, now: nat, t: Gateway, u: Gateway, v: Gateway,
                             q: string, f: Family, all: set<Addr>)
    requires Registrations(m, ip4, ip6, sw, now, t, u, v) && Sourced(t, Key(q, f), all)
    ensures Sourced(v, Key(q, f), all + News(m, q, f, if f == Four then ip4 != NoAddr else ip6 != NoAddr))
  {
    var mid := all + News(m, q, f, f == Four && ip4 != NoAddr);
    var more := all + News(m, q, f, if f == Four then ip4 != NoAddr else ip6 != NoAddr);
    OneOrNoneSourced(t, u, m, Four, ip4, sw.ips4, sw.doms4, now, q, f, all, mid);
    OneOrNoneSourced(u, v, m, Six, ip6, sw.ips6, sw.doms6, now, q, f, mid, more);
  }

  lemma OneOrNoneSourced(s: Gateway, t: Gateway, m: Reply, g: Family, ip: Addr, seenIps: set<string>, seenDoms: set<string>,
                         now: nat, q: string, f: Family, all: set<Addr>, more: set<Addr>)
    requires Inv(s, now) && Sourced(s, Key(q, f), all) && all <= more
    requires ip == NoAddr ==> t == s
    requires ip != NoAddr ==>
               && Taken(s.alg, s.xlat, m.q, g, ip)
               && t == RegisterOne(s, Key(m.q, g), ip, NewAnswer(m, g, now), seenIps, seenDoms, now)
               && (m.q == q && f == g ==> ToSet(Only(Real(m), f)) <= more)
    ensures Sourced(t, Key(q, f), more)
  {
    if ip != NoAddr {
      OneSourced(s, m, g, ip, seenIps, seenDoms, now, q, f, all);
      SourcedWiden(t, t, Key(q, f), all + (if m.q == q && f == g then ToSet(Only(Real(m), f)) else {}), more);
    } else {
      SourcedWiden(s, t, Key(q, f), all, more);
    }
  }

  lemma SameSourced(s: Gateway, t: Gateway, k: string, all: set<Addr>, more: set<Addr>)
    requires SameButTtl(s, t) && Sourced(s, k, all) && all <= more
    ensures Sourced(t, k, more)
  {
    SourcedWiden(s, t, k, all, more);
  }

  lemma BusySourced(hash: string -> bv64, s: Gateway, m: Reply, sw: Sweeps, now: nat, q: string, f: Family, all: set<Addr>, v: Gateway)
    requires Inv(s, now) && Sourced(s, Key(q, f), all) && !Idle(hash, s, m, now) && v == Answered(hash, s, m, sw, now)
    ensures var p := Pick(hash, s, m, now);
            Sourced(v, Key(q, f), all + News(m, q, f, if f == Four then p.ip4 != NoAddr else p.ip6 != NoAddr))
  {
    var p := Pick(hash, s, m, now);
    var t, u := RegisterSplit(hash, s, m, sw, now);
    SameSourced(s, t, Key(q, f), all, all);
    RegistrationsSourced(m, p.ip4, p.ip6, sw, now, t, u, v, q, f, all);
  }

  lemma ReplySourced(hash: string -> bv64, s: Gateway, m: Reply, sw: Sweeps, now: nat, q: string, f: Family, all: set<Addr>)
    requires Inv(s, now) && Sourced(s, Key(q, f), all)
    ensures Sourced(Answered(hash, s, m, sw, now), Key(q, f), all + News(m, q, f, Registers(hash, s, m, f, now)))
  {
    var v := Answered(hash, s, m, sw, now);
    if Idle(hash, s, m, now) {
      IdleReply(hash, s, m, sw, now);
      SameSourced(s, v, Key(q, f), all, all + News(m, q, f, Registers(hash, s, m, f, now)));
    } else {
      BusySourced(hash, s, m, sw, now, q, f, all, v);
    }
  }

  /** In every run, all that the answer for a domain and family holds was registered for them. */
  lemma StopSourced(hash: string -> bv64, s: Gateway, e: Event, k: string, all: set<Addr>)
    requires Sourced(s, k, all) && (e.StopIps? || e.StopDomains?)
    ensures Sourced(Step(hash, s, e), k, all)
  {
    if e.StopIps? && Known(s, k) && s.alg[k].id == e.id && !NoTid(e.tid) {
      RemoveWithin(s.heap[e.id].ips.store, {e.tid}, StopsAny(s.heap[e.id].ips, e.tid, e.now), e.seen, e.now, all);
    }
  }

  lemma {:induction false} HeldWasRegistered(hash: string -> bv64, es: seq<Event>, now: nat, q: string, f: Family)
    requires Timed(es, now)
    ensures Sourced(Run(hash, es), Key(q, f), Registered(hash, es, q, f))
  {
    if es != [] {
      var init, e := es[..|es| - 1], es[|es| - 1];
      assert Timed(init, e.now);
      TablesAgree(hash, init, e.now);
      HeldWasRegistered(hash, init, e.now, q, f);
      var s := Run(hash, init);
      var all := Registered(hash, init, q, f);
      match e
      case Reply_(m, sw, t) =>
        ReplySourced(hash, s, m, sw, t, q, f, all);
      case StopIps(_, _, _, _) => StopSourced(hash, s, e, Key(q, f), all);
      case StopDomains(_, _, _, _) => StopSourced(hash, s, e, Key(q, f), all);
      case Clear(_) =>
    }
  }

  // ---- Completeness -------------------------------------------------------------------------

  /** `ip` is filed under `tid` and does not expire before `until`. */
  predicate HoldsIn(pri: map<string, Entry<Addr>>, tid: string, ip: Addr, until: nat) {
    tid in pri && ip in pri[tid].items && pri[tid].ttl >= until
  }

  predicate HoldsAt(s: Gateway, k: string, a: Addr, tid: string, ip: Addr, until: nat) {
    Known(s, k) && s.alg[k].algip == a && HoldsIn(s.heap[s.alg[k].id].ips.store.pri, tid, ip, until)
  }

  lemma MergeHoldsIn(s: Store<Addr>, q: map<string, Entry<Addr>>, seen: set<string>, now: nat, tid: string, ip: Addr, until: nat)
    requires HoldsIn(s.pri, tid, ip, until) && now < until
    ensures HoldsIn(Merged(s, q, seen, now).pri, tid, ip, until)
  {
    if tid in q {
      JoinedItems(s.pri[tid], q[tid], now);
      assert ip in ToSet(s.pri[tid].items);
    }
  }

  lemma OneHolds(s: Gateway, m: Reply, g: Family, ip': Addr, seenIps: set<string>, seenDoms: set<string>, now: nat,
                 k: string, a: Addr, tid: string, ip: Addr, until: nat)
    requires Inv(s, now) && Taken(s.alg, s.xlat, m.q, g, ip')
    requires HoldsAt(s, k, a, tid, ip, until) && now < until
    ensures HoldsAt(RegisterOne(s, Key(m.q, g), ip', NewAnswer(m, g, now), seenIps, seenDoms, now), k, a, tid, ip, until)
  {
    var b := NewAnswer(m, g, now);
    if k == Key(m.q, g) {
      RegisterOneHere(s, m.q, g, ip', b, seenIps, seenDoms, now);
      MergeHoldsIn(s.heap[s.alg[k].id].ips.store, b.ips.store.pri, seenIps, now, tid, ip, until);
    } else {
      RegisterOneElsewhere(s, m.q, g, ip', b, seenIps, seenDoms, now, k);
    }
  }

  lemma SameHolds(s: Gateway, t: Gateway, k: string, a: Addr, tid: string, ip: Addr, until: nat)
    requires SameButTtl(s, t) && HoldsAt(s, k, a, tid, ip, until)
    ensures HoldsAt(t, k, a, tid, ip, until)
  {
  }

  lemma ReplyHolds(hash: string -> bv64, s: Gateway, m: Reply, sw: Sweeps, now: nat,
                   k: string, a: Addr, tid: string, ip: Addr, until: nat)
    requires Inv(s, now) && HoldsAt(s, k, a, tid, ip, until) && now < until
    ensures HoldsAt(Answered(hash, s, m, sw, now), k, a, tid, ip, until)
  {
    if Idle(hash, s, m, now) {
      IdleReply(hash, s, m, sw, now);
      SameHolds(s, Answered(hash, s, m, sw, now), k, a, tid, ip, until);
    } else {
      var p := Pick(hash, s, m, now);
      var t, u := RegisterSplit(hash, s, m, sw, now);
      SameHolds(s, t, k, a, tid, ip, until);
      if p.ip4 != NoAddr {
        OneHolds(t, m, Four, p.ip4, sw.ips4, sw.doms4, now, k, a, tid, ip, until);
      }
      if p.ip6 != NoAddr {
        OneHolds(u, m, Six, p.ip6, sw.ips6, sw.doms6, now, k, a, tid, ip, until);
      }
    }
  }

  lemma NewIpsHold(m: Reply, g: Family, now: nat, ip: Addr)
    requires ip in Only(Real(m), g)
    ensures HoldsIn(NewAnswer(m, g, now).ips.store.pri, m.tid, ip, now + Lifetime(m.ttl))
  {
  }

  /** A live incoming entry is held after the merge, whatever was there before. */
  lemma MergeFiles(s: Store<Addr>, q: map<string, Entry<Addr>>, seen: set<string>, now: nat, tid: string, ip: Addr, until: nat)
    requires HoldsIn(q, tid, ip, until) && now < until
    ensures HoldsIn(Merged(s, q, seen, now).pri, tid, ip, until)
  {
    var pv, qv := At(s.pri, tid), q[tid];
    if Fresh(pv, now) {
      JoinedItems(pv, qv, now);
      assert ip in ToSet(Alive(qv, now));
    }
  }

  /** Registering files the address for the promised lifetime. */
  lemma OneFiles(s: Gateway, m: Reply, g: Family, a: Addr, seenIps: set<string>, seenDoms: set<string>, now: nat, ip: Addr)
    requires Inv(s, now) && Taken(s.alg, s.xlat, m.q, g, a) && ip in Only(Real(m), g)
    ensures HoldsAt(RegisterOne(s, Key(m.q, g), a, NewAnswer(m, g, now), seenIps, seenDoms, now),
                    Key(m.q, g), a, m.tid, ip, now + Lifetime(m.ttl))
  {
    var k, b := Key(m.q, g), NewAnswer(m, g, now);
    RegisterOneHere(s, m.q, g, a, b, seenIps, seenDoms, now);
    NewIpsHold(m, g, now, ip);
    if Known(s, k) {
      MergeFiles(s.heap[s.alg[k].id].ips.store, b.ips.store.pri, seenIps, now, m.tid, ip, now + Lifetime(m.ttl));
    }
  }

  lemma ReplyFiles(hash: string -> bv64, s: Gateway, m: Reply, sw: Sweeps, now: nat, f: Family, ip: Addr)
    requires Inv(s, now) && Registers(hash, s, m, f, now) && ip in Only(Real(m), f)
    ensures HoldsAt(Answered(hash, s, m, sw, now), Key(m.q, f), PickedIp(Pick(hash, s, m, now), f), m.tid, ip, now + Lifetime(m.ttl))
  {
    var p := Pick(hash, s, m, now);
    var t, u := RegisterSplit(hash, s, m, sw, now);
    if f == Four {
      OneFiles(t, m, Four, p.ip4, sw.ips4, sw.doms4, now, ip);
      if p.ip6 != NoAddr {
        OneHolds(u, m, Six, p.ip6, sw.ips6, sw.doms6, now, Key(m.q, f), p.ip4, m.tid, ip, now + Lifetime(m.ttl));
      }
    } else {
      OneFiles(u, m, Six, p.ip6, sw.ips6, sw.doms6, now, ip);
    }
  }

  /** No clear, and no stop of transport `tid`, from event `i` on. */
  ghost predicate Undisturbed(es: seq<Event>, i: nat, tid: string) {
    forall j :: i <= j < |es| ==> !es[j].Clear? && (es[j].StopIps? ==> es[j].tid != tid)
  }

  lemma StopHoldsIn(p: Ips, stopped: string, seen: set<string>, now: nat, tid: string, ip: Addr, until: nat)
    requires HoldsIn(p.store.pri, tid, ip, until) && stopped != tid
    ensures HoldsIn(StoppedIps(p, stopped, seen, now).store.pri, tid, ip, until)
  {
  }

  lemma StopIpsHolds(hash: string -> bv64, s: Gateway, e: Event, k: string, a: Addr, tid: string, ip: Addr, until: nat)
    requires HoldsAt(s, k, a, tid, ip, until) && e.StopIps? && e.tid != tid
    ensures HoldsAt(Step(hash, s, e), k, a, tid, ip, until)
  {
    StopHoldsIn(s.heap[s.alg[k].id].ips, e.tid, e.seen, e.now, tid, ip, until);
  }

  lemma StopDomainsHolds(hash: string -> bv64, s: Gateway, e: Event, k: string, a: Addr, tid: string, ip: Addr, until: nat)
    requires HoldsAt(s, k, a, tid, ip, until) && e.StopDomains?
    ensures HoldsAt(Step(hash, s, e), k, a, tid, ip, until)
  {
  }

  lemma StepHolds(hash: string -> bv64, s: Gateway, e: Event, k: string, a: Addr, tid: string, ip: Addr, until: nat)
    requires Inv(s, e.now) && HoldsAt(s, k, a, tid, ip, until) && e.now < until
    requires !e.Clear? && (e.StopIps? ==> e.tid != tid)
    ensures HoldsAt(Step(hash, s, e), k, a, tid, ip, until)
  {
    match e
    case Reply_(m, sw, now) =>
      ReplyHolds(hash, s, m, sw, now, k, a, tid, ip, until);
    case StopIps(id, stopped, seen, now) => StopIpsHolds(hash, s, e, k, a, tid, ip, until);
    case StopDomains(id, stopped, seen, now) => StopDomainsHolds(hash, s, e, k, a, tid, ip, until);
  }

  /** What is held for a transport at some point is still held later, until its lifetime ends. */
  lemma {:induction false} HoldsOn(hash: string -> bv64, es: seq<Event>, i: nat, now: nat, k: string, a: Addr, tid: string, ip: Addr, until: nat)
    requires Timed(es, now) && i <= |es| && now < until && Undisturbed(es, i, tid)
    requires HoldsAt(Run(hash, es[..i]), k, a, tid, ip, until)
    ensures HoldsAt(Run(hash, es), k, a, tid, ip, until)
    decreases |es|
  {
    if i == |es| {
      assert es[..i] == es;
    } else {
      var init, e := es[..|es| - 1], es[|es| - 1];
      assert init[..i] == es[..i];
      TablesAgree(hash, init, e.now);
      HoldsOn(hash, init, i, e.now, k, a, tid, ip, until);
      StepHolds(hash, Run(hash, init), e, k, a, tid, ip, until);
    }
  }

  /** A real address registered through a transport stays filed under its alg address until its
      lifetime ends, however many answers are merged on top of it. */
  lemma FiledThere(hash: string -> bv64, es: seq<Event>, i: nat, f: Family, ip: Addr)
    requires i < |es| && es[i].Reply_? && Timed(es[..i], es[i].now)
    requires Registers(hash, Run(hash, es[..i]), es[i].m, f, es[i].now) && ip in Only(Real(es[i].m), f)
    ensures HoldsAt(Run(hash, es[..i + 1]), Key(es[i].m.q, f), PickedIp(Pick(hash, Run(hash, es[..i]), es[i].m, es[i].now), f),
                    es[i].m.tid, ip, es[i].now + Lifetime(es[i].m.ttl))
  {
    TablesAgree(hash, es[..i], es[i].now);
    ReplyFiles(hash, Run(hash, es[..i]), es[i].m, es[i].sw, es[i].now, f, ip);
    assert es[..i + 1][..i] == es[..i] && es[..i + 1][i] == es[i];
  }

  lemma StaysFiled(hash: string -> bv64, es: seq<Event>, i: nat, now: nat, f: Family, ip: Addr)
    requires Timed(es, now) && i < |es| && es[i].Reply_?
    requires Registers(hash, Run(hash, es[..i]), es[i].m, f, es[i].now) && ip in Only(Real(es[i].m), f)
    requires now < es[i].now + Lifetime(es[i].m.ttl) && Undisturbed(es, i + 1, es[i].m.tid)
    ensures HoldsAt(Run(hash, es), Key(es[i].m.q, f), PickedIp(Pick(hash, Run(hash, es[..i]), es[i].m, es[i].now), f),
                    es[i].m.tid, ip, es[i].now + Lifetime(es[i].m.ttl))
  {
    var e, s := es[i], Run(hash, es[..i]);
    FiledThere(hash, es, i, f, ip);
    HoldsOn(hash, es, i + 1, now, Key(e.m.q, f), PickedIp(Pick(hash, s, e.m, e.now), f), e.m.tid, ip, e.now + Lifetime(e.m.ttl));
  }

  // ---- The two theorems about X ---------------------------------------------------------------

  lemma RealWithin(p: Ips, uid: string, tids: seq<string>, alive: bool, now: nat, all: set<Addr>)
    requires StoreWithin(p.store, all)
    ensures RealFrom(p, uid, tids, alive, now) <= all + {ANY4, ANY6}
    ensures tids != [] ==> RealFrom(p, uid, tids, alive, now) <= all
  {
    forall x | x in AllPrimary(p, alive, now)
      ensures x in all
    {
      InPrimary(p, now, x);
      if alive {
        var k :| x in Live(p.store.pri, k, now);
        WithinAt(p.store.pri, all, k);
      } else {
        var k :| x in View(p.store, k, now);
        WithinAt(p.store.pri, all, k);
        WithinAt(p.store.past, all, k);
      }
    }
    forall t | t in tids
      ensures RealIpsFor(p, t, alive, now) <= all
    {
      WithinAt(p.store.pri, all, t);
    }
  }

  /** The one domain and family an alg address was issued to. */
  lemma OwnerOf(s: Gateway, now: nat, a: Addr) returns (q: string, f: Family)
    requires Inv(s, now) && a in s.xlat
    ensures Known(s, Key(q, f)) && s.alg[Key(q, f)].algip == a && s.alg[Key(q, f)].id == s.xlat[a] && Belongs(a, f)
    ensures forall r, g :: Known(s, Key(r, g)) && s.alg[Key(r, g)].algip == a ==> r == q && g == f
  {
    var k :| k in s.alg && s.alg[k].algip == a;
    assert KeyedEntry(k, s.alg[k].algip);
    q, f :| k == Key(q, f) && Belongs(a, f);
    assert s.xlat[a] in s.heap.Keys;
    forall r, g | Known(s, Key(r, g)) && s.alg[Key(r, g)].algip == a
      ensures r == q && g == f
    {
      assert s.alg[Key(r, g)].id == s.alg[k].id;
      KeyInjective(r, g, q, f);
    }
  }

  /** Undoing is sound: an alg address was issued to exactly one domain and family, and every real
      address X takes from it, live or stale, was registered for that domain and family. Only the
      unspecified block markers come on top, and only when no transports are named. */
  lemma UndoSound(hash: string -> bv64, es: seq<Event>, now: nat, a: Addr, uid: string, tids: seq<string>, alive: bool)
      returns (q: string, f: Family)
    requires Timed(es, now) && a in Run(hash, es).xlat
    ensures var s := Run(hash, es);
            && Known(s, Key(q, f)) && s.alg[Key(q, f)].algip == a && s.alg[Key(q, f)].id == s.xlat[a] && Belongs(a, f)
            && (forall r, g :: Known(s, Key(r, g)) && s.alg[Key(r, g)].algip == a ==> r == q && g == f)
    ensures var found := RealFrom(IpsOf(Run(hash, es), Run(hash, es).xlat[a]), uid, tids, alive, now);
            && found <= Registered(hash, es, q, f) + {ANY4, ANY6}
            && (tids != [] ==> found <= Registered(hash, es, q, f))
  {
    var s := Run(hash, es);
    TablesAgree(hash, es, now);
    q, f := OwnerOf(s, now, a);
    HeldWasRegistered(hash, es, now, q, f);
    RealWithin(IpsOf(s, s.xlat[a]), uid, tids, alive, now, Registered(hash, es, q, f));
  }

  lemma LiveIsFound(p: Ips, tid: string, ip: Addr, uid: string, tids: seq<string>, alive: bool, now: nat)
    requires ip in Live(p.store.pri, tid, now) && (tids == [] || tid in tids)
    ensures ip in RealFrom(p, uid, tids, alive, now)
  {
    assert ip in View(p.store, tid, now);
    InPrimary(p, now, ip);
    assert ip in RealIpsFor(p, tid, alive, now);
  }

  lemma AlgIsUnmapped(a: Addr, f: Family)
    requires Belongs(a, f)
    ensures Unmap(a) == a
  {
  }

  lemma SettledAsFound(cfg: Config, a: Addr, found: set<Addr>)
    requires UndoNat64(cfg.x64, if found == {} then {a} else found) == {}
    ensures Settled(cfg, a, found, true) == found
  {
  }

  /** X on an alg address answers with exactly what that address's answer holds. */
  lemma XOfAlg(cfg: Config, s: Gateway, a: Addr, usestale: bool, uid: string, tids: seq<string>, now: nat, found: set<Addr>)
    requires Unmap(a) == a && a in s.xlat && a !in cfg.fake && !Skips(cfg, uid, tids)
    requires found == RealFrom(IpsOf(s, s.xlat[a]), uid, tids, !usestale, now)
    requires UndoNat64(cfg.x64, if found == {} then {a} else found) == {}
    ensures X(cfg, s, a, usestale, uid, tids, now) == (found, true)
  {
    SettledAsFound(cfg, a, found);
  }

  /** Undoing is complete: until its lifetime ends, a registered real address is among those X finds,
      whether or not stale ones are wanted, for no transports or any list naming its own. */
  lemma UndoComplete(hash: string -> bv64, es: seq<Event>, i: nat, now: nat, f: Family, ip: Addr,
                     cfg: Config, usestale: bool, uid: string, tids: seq<string>)
    requires Timed(es, now) && i < |es| && es[i].Reply_?
    requires Registers(hash, Run(hash, es[..i]), es[i].m, f, es[i].now) && ip in Only(Real(es[i].m), f)
    requires now < es[i].now + Lifetime(es[i].m.ttl) && Undisturbed(es, i + 1, es[i].m.tid)
    requires tids == [] || es[i].m.tid in tids
    ensures var s := Run(hash, es);
            var a := PickedIp(Pick(hash, Run(hash, es[..i]), es[i].m, es[i].now), f);
            && a in s.xlat
            && (a !in cfg.fake && !Skips(cfg, uid, tids)
                && UndoNat64(cfg.x64, RealFrom(IpsOf(s, s.xlat[a]), uid, tids, !usestale, now)) == {} ==>
                  ip in X(cfg, s, a, usestale, uid, tids, now).0)
            && ip in RealFrom(IpsOf(s, s.xlat[a]), uid, tids, !usestale, now)
  {
    var m := es[i].m;
    var s := Run(hash, es);
    var a := PickedIp(Pick(hash, Run(hash, es[..i]), m, es[i].now), f);
    StaysFiled(hash, es, i, now, f, ip);
    TablesAgree(hash, es, now);
    KeyedAt(s.alg, m.q, f);
    var found := RealFrom(IpsOf(s, s.xlat[a]), uid, tids, !usestale, now);
    LiveIsFound(IpsOf(s, s.xlat[a]), m.tid, ip, uid, tids, !usestale, now);
    if a !in cfg.fake && !Skips(cfg, uid, tids) && UndoNat64(cfg.x64, found) == {} {
      AlgIsUnmapped(a, f);
      XOfAlg(cfg, s, a, usestale, uid, tids, now, found);
    }
  }

  lemma LiveIsVisible(p: Ips, tid: string, ip: Addr, now: nat)
    requires ip in Live(p.store.pri, tid, now)
    ensures ip in Visible(p, now)
  {
    assert ip in View(p.store, tid, now);
    InPrimary(p, now, ip);
  }

  lemma FoundThrough(s: Gateway, id: nat, ip: Addr, uid: string, tids: seq<string>, alive: bool, now: nat)
    requires id in PtrAt(s.ptr, ip) && ip in RealFrom(IpsOf(s, id), uid, tids, alive, now)
    ensures ip in FoundByPtr(s, ip, uid, tids, alive, now)
  {
  }

  lemma XByPtr(cfg: Config, s: Gateway, ip: Addr, usestale: bool, uid: string, tids: seq<string>, now: nat, found: set<Addr>)
    requires Unmap(ip) == ip && ip !in s.xlat && ip !in cfg.fake && !Skips(cfg, uid, tids) && PtrAt(s.ptr, ip) != []
    requires found == FoundByPtr(s, ip, uid, tids, !usestale, now)
    requires UndoNat64(cfg.x64, if found == {} then {ip} else found) == {}
    ensures X(cfg, s, ip, usestale, uid, tids, now) == (found, false)
  {
    SettledAsFound(cfg, ip, found);
  }

  /** X on a real address: while an answer shows it as live, it is found again by way of `ptr`, and told apart
      from an alg address. */
  lemma XOfReal(cfg: Config, s: Gateway, id: nat, tid: string, ip: Addr, usestale: bool, uid: string, tids: seq<string>, now: nat,
                found: set<Addr>)
    requires Inv(s, now) && id in s.heap && ip in Live(s.heap[id].ips.store.pri, tid, now)
    requires Unmap(ip) == ip && ip !in s.xlat && ip !in cfg.fake && !Skips(cfg, uid, tids) && (tids == [] || tid in tids)
    requires found == FoundByPtr(s, ip, uid, tids, !usestale, now) && UndoNat64(cfg.x64, found) == {}
    ensures X(cfg, s, ip, usestale, uid, tids, now) == (found, false) && ip in found
  {
    var p := s.heap[id].ips;
    LiveIsFound(p, tid, ip, uid, tids, !usestale, now);
    LiveIsVisible(p, tid, ip, now);
    assert Covers(s.ptr, id, Visible(p, now));
    FoundThrough(s, id, ip, uid, tids, !usestale, now);
    XByPtr(cfg, s, ip, usestale, uid, tids, now, found);
  }
}
