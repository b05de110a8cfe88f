/** What every gateway step keeps: the three tables agree in every reachable state. */
module AlgInvariant {
  import opened Slices
  import opened AlgAddr
  import opened AlgAnswer
  import opened AlgGateway

  /** `alg` and `xlat` are in bijection: each key's address leads to that key's answer, no two keys
      share an answer, and `xlat` has no other addresses. */
  ghost predicate Bijective(alg: map<string, AlgEntry>, xlat: map<Addr, nat>) {
    && (forall k :: k in alg ==> alg[k].algip in xlat && xlat[alg[k].algip] == alg[k].id)
    && (forall k, l :: k in alg && l in alg && alg[k].id == alg[l].id ==> k == l)
    && (forall a :: a in xlat ==> exists k :: k in alg && alg[k].algip == a)
  }

  /** The answers kept are those `xlat` names, and none is newer than the next identifier. */
  ghost predicate Owned(xlat: map<Addr, nat>, ids: set<nat>, next: nat) {
    && (forall a :: a in xlat ==> xlat[a] in ids)
    && (forall id :: id in ids ==> id < next && exists a :: a in xlat && xlat[a] == id)
  }

  ghost predicate KeyedEntry(k: string, ip: Addr) {
    exists q, f :: k == Key(q, f) && Belongs(ip, f)
  }

  /** Every key is some domain's, and its address lies in the block of that key's family. */
  ghost predicate Keyed(alg: map<string, AlgEntry>) {
    forall k :: k in alg ==> KeyedEntry(k, alg[k].algip)
  }

  ghost predicate PtrSound(ptr: map<Addr, seq<nat>>, ids: set<nat>) {
    forall ip :: ip in ptr ==> NoDups(ptr[ip]) && forall id :: id in ptr[ip] ==> id in ids
  }

  ghost predicate Covers(ptr: map<Addr, seq<nat>>, id: nat, ips: set<Addr>) {
    forall ip :: ip in ips ==> id in PtrAt(ptr, ip)
  }

  /** Every address an answer still shows leads back to that answer. */
  ghost predicate PtrComplete(ptr: map<Addr, seq<nat>>, heap: map<nat, Answer>, now: nat) {
    forall id :: id in heap ==> Covers(ptr, id, Visible(heap[id].ips, now))
  }

  ghost predicate Inv(s: Gateway, now: nat) {
    && Bijective(s.alg, s.xlat) && Owned(s.xlat, s.heap.Keys, s.next) && Keyed(s.alg)
    && PtrSound(s.ptr, s.heap.Keys) && PtrComplete(s.ptr, s.heap, now)
  }

  ghost predicate SameStores(h: map<nat, Answer>, g: map<nat, Answer>) {
    && h.Keys == g.Keys
    && forall id :: id in h ==> g[id].ips == h[id].ips && g[id].domains == h[id].domains
  }

  /** Equal but for the lifetimes of the answers. */
  ghost predicate SameButTtl(s: Gateway, t: Gateway) {
    t.alg == s.alg && t.xlat == s.xlat && t.ptr == s.ptr && t.next == s.next && SameStores(s.heap, t.heap)
  }

  /** `ip` is what domain `q` gets: the address filed for it, or one nobody has. */
  ghost predicate Taken(alg: map<string, AlgEntry>, xlat: map<Addr, nat>, q: string, f: Family, ip: Addr) {
    var k := Key(q, f);
    && Belongs(ip, f)
    && (k in alg ==> alg[k].algip == ip)
    && (k !in alg ==> ip !in xlat)
  }

  lemma SameKeepsInv(s: Gateway, t: Gateway, now: nat)
    requires Inv(s, now) && SameButTtl(s, t)
    ensures Inv(t, now)
  {
    forall id | id in t.heap
      ensures Covers(t.ptr, id, Visible(t.heap[id].ips, now))
    {
      assert t.heap[id].ips == s.heap[id].ips;
    }
  }

  lemma KeyedAt(alg: map<string, AlgEntry>, q: string, f: Family)
    requires Keyed(alg) && Key(q, f) in alg
    ensures Belongs(alg[Key(q, f)].algip, f)
  {
    var k := Key(q, f);
    assert KeyedEntry(k, alg[k].algip);
    var r, g :| k == Key(r, g) && Belongs(alg[k].algip, g);
    KeyInjective(q, f, r, g);
  }

  lemma {:induction false} ProbeFree(hash: string -> bv64, xlat: map<Addr, nat>, k: string, f: Family, i: nat)
    ensures var ip := Probe(hash, xlat, k, f, i);
            ip != NoAddr ==> Belongs(ip, f) && ip !in xlat
    decreases MAX_ITER - i
  {
    if i < MAX_ITER {
      ProbeFree(hash, xlat, k, f, i + 1);
    }
  }

  lemma LongerLife(h: map<nat, Answer>, id: nat, ttl: nat)
    requires id in h
    ensures SameStores(h, h[id := h[id].(ttl := ttl)])
  {
  }

  lemma TakeKnown(hash: string -> bv64, s: Gateway, q: string, f: Family, now: nat)
    requires Inv(s, now) && Key(q, f) in s.alg
    ensures var (t, ip) := Take(hash, s, q, f, now);
            SameButTtl(s, t) && ip == s.alg[Key(q, f)].algip && Belongs(ip, f)
  {
    KeyedAt(s.alg, q, f);
    var id := s.alg[Key(q, f)].id;
    assert s.xlat[s.alg[Key(q, f)].algip] in s.heap.Keys;
    LongerLife(s.heap, id, Extended(s.heap[id].ttl, now));
    TakeKnownIs(hash, s, q, f, now, id);
  }

  lemma TakeKnownIs(hash: string -> bv64, s: Gateway, q: string, f: Family, now: nat, id: nat)
    requires Key(q, f) in s.alg && id == s.alg[Key(q, f)].id && id in s.heap && Belongs(s.alg[Key(q, f)].algip, f)
    ensures Take(hash, s, q, f, now) ==
            (s.(heap := s.heap[id := s.heap[id].(ttl := Extended(s.heap[id].ttl, now))]), s.alg[Key(q, f)].algip)
  {
  }

  lemma TakeNew(hash: string -> bv64, s: Gateway, q: string, f: Family, now: nat)
    requires Key(q, f) !in s.alg
    ensures var (t, ip) := Take(hash, s, q, f, now);
            t == s && (ip != NoAddr ==> ip !in s.xlat && Belongs(ip, f))
  {
    ProbeFree(hash, s.xlat, Key(q, f), f, 0);
  }

  /** Taking an address never reaches the eviction branch; it changes at most one lifetime. */
  lemma TakeEffect(hash: string -> bv64, s: Gateway, q: string, f: Family, now: nat)
    requires Inv(s, now)
    ensures var (t, ip) := Take(hash, s, q, f, now);
            SameButTtl(s, t) && Inv(t, now) && (ip != NoAddr ==> Taken(s.alg, s.xlat, q, f, ip))
  {
    if Key(q, f) in s.alg {
      TakeKnown(hash, s, q, f, now);
      SameKeepsInv(s, Take(hash, s, q, f, now).0, now);
    } else {
      TakeNew(hash, s, q, f, now);
    }
  }

  // ---- registerLocked -----------------------------------------------------------------------

  lemma NewEntryBijective(alg: map<string, AlgEntry>, xlat: map<Addr, nat>, ids: set<nat>, next: nat, k: string, ip: Addr)
    requires Bijective(alg, xlat) && Owned(xlat, ids, next) && k !in alg && ip !in xlat
    ensures Bijective(alg[k := AlgEntry(ip, next)], xlat[ip := next])
  {
    NewEntryInto(alg, xlat, ids, next, k, ip);
    NewEntryOnto(alg, xlat, next, k, ip);
  }

  lemma NewEntryInto(alg: map<string, AlgEntry>, xlat: map<Addr, nat>, ids: set<nat>, next: nat, k: string, ip: Addr)
    requires Bijective(alg, xlat) && Owned(xlat, ids, next) && k !in alg && ip !in xlat
    ensures var alg', xlat' := alg[k := AlgEntry(ip, next)], xlat[ip := next];
            && (forall l :: l in alg' ==> alg'[l].algip in xlat' && xlat'[alg'[l].algip] == alg'[l].id)
            && (forall l, j :: l in alg' && j in alg' && alg'[l].id == alg'[j].id ==> l == j)
  {
    forall l | l in alg
      ensures alg[l].id != next
    {
      assert xlat[alg[l].algip] in ids;
    }
  }

  lemma NewEntryOnto(alg: map<string, AlgEntry>, xlat: map<Addr, nat>, next: nat, k: string, ip: Addr)
    requires k !in alg && forall a :: a in xlat ==> exists l :: l in alg && alg[l].algip == a
    ensures var alg', xlat' := alg[k := AlgEntry(ip, next)], xlat[ip := next];
            forall a :: a in xlat' ==> exists l :: l in alg' && alg'[l].algip == a
  {
    var alg', xlat' := alg[k := AlgEntry(ip, next)], xlat[ip := next];
    forall b | b in xlat'
      ensures exists l :: l in alg' && alg'[l].algip == b
    {
      if b == ip {
        assert alg'[k].algip == b;
      } else {
        var l :| l in alg && alg[l].algip == b;
        assert alg'[l].algip == b;
      }
    }
  }

  lemma NewEntryOwned(xlat: map<Addr, nat>, ids: set<nat>, next: nat, ip: Addr)
    requires Owned(xlat, ids, next) && ip !in xlat
    ensures Owned(xlat[ip := next], ids + {next}, next + 1)
  {
    var xlat' := xlat[ip := next];
    forall id | id in ids + {next}
      ensures exists a :: a in xlat' && xlat'[a] == id
    {
      if id == next {
        assert xlat'[ip] == id;
      } else {
        var a :| a in xlat && xlat[a] == id;
        assert xlat'[a] == id;
      }
    }
  }

  /** The parts of the tables that filing touches, and what it leaves alone. */
  ghost predicate FiledFor(s: Gateway, t: Gateway, k: string, ip: Addr) {
    && k in t.alg && t.alg[k].algip == ip && t.alg[k].id in t.heap
    && s.heap.Keys <= t.heap.Keys && t.ptr == s.ptr
    && (forall id :: id in t.heap && id != t.alg[k].id ==> id in s.heap && t.heap[id] == s.heap[id])
  }

  lemma NewEntryKeyed(alg: map<string, AlgEntry>, q: string, f: Family, e: AlgEntry)
    requires Keyed(alg) && Belongs(e.algip, f)
    ensures Keyed(alg[Key(q, f) := e])
  {
    assert KeyedEntry(Key(q, f), e.algip);
  }

  lemma FiledKnown(s: Gateway, k: string, ip: Addr, b: Answer, now: nat)
    requires Inv(s, now) && k in s.alg && s.alg[k].algip == ip
    ensures var t := s.(heap := s.heap[s.alg[k].id := b]);
            Owned(t.xlat, t.heap.Keys, t.next) && FiledFor(s, t, k, ip)
  {
    assert s.xlat[s.alg[k].algip] in s.heap.Keys;
    assert s.heap[s.alg[k].id := b].Keys == s.heap.Keys;
  }

  lemma FiledNew(s: Gateway, q: string, f: Family, ip: Addr, a: Answer, now: nat)
    requires Inv(s, now) && Taken(s.alg, s.xlat, q, f, ip) && Key(q, f) !in s.alg
    ensures var t := s.(alg := s.alg[Key(q, f) := AlgEntry(ip, s.next)], xlat := s.xlat[ip := s.next],
                        heap := s.heap[s.next := a], next := s.next + 1);
            && Bijective(t.alg, t.xlat) && Owned(t.xlat, t.heap.Keys, t.next) && Keyed(t.alg)
            && FiledFor(s, t, Key(q, f), ip)
  {
    NewEntryBijective(s.alg, s.xlat, s.heap.Keys, s.next, Key(q, f), ip);
    NewEntryOwned(s.xlat, s.heap.Keys, s.next, ip);
    NewEntryKeyed(s.alg, q, f, AlgEntry(ip, s.next));
    NewEntryFiled(s.heap, s.next, a, s.xlat, s.next);
  }

  lemma NewEntryFiled(heap: map<nat, Answer>, id: nat, a: Answer, xlat: map<Addr, nat>, next: nat)
    requires Owned(xlat, heap.Keys, next) && id == next
    ensures id !in heap && heap[id := a].Keys == heap.Keys + {id}
  {
  }

  lemma FiledTables(s: Gateway, q: string, f: Family, ip: Addr, a: Answer, seenIps: set<string>, seenDoms: set<string>, now: nat)
    requires Inv(s, now) && Taken(s.alg, s.xlat, q, f, ip)
    ensures var t := Filed(s, Key(q, f), ip, a, seenIps, seenDoms, now);
            && Bijective(t.alg, t.xlat) && Owned(t.xlat, t.heap.Keys, t.next) && Keyed(t.alg)
            && FiledFor(s, t, Key(q, f), ip)
  {
    var k := Key(q, f);
    if k in s.alg {
      var id := s.alg[k].id;
      assert s.xlat[s.alg[k].algip] in s.heap.Keys;
      FiledKnown(s, k, ip, MergedAnswer(s.heap[id], a, seenIps, seenDoms, now), now);
    } else {
      FiledNew(s, q, f, ip, a, now);
    }
  }

  lemma PtrAddedAt(ptr: map<Addr, seq<nat>>, ips: set<Addr>, id: nat, ip: Addr)
    ensures var r := PtrAt(PtrAdded(ptr, ips, id), ip);
            r == if ip in ips && id !in PtrAt(ptr, ip) then PtrAt(ptr, ip) + [id] else PtrAt(ptr, ip)
  {
  }

  lemma PtrAddedSound(ptr: map<Addr, seq<nat>>, ids: set<nat>, more: set<nat>, vis: set<Addr>, id: nat)
    requires PtrSound(ptr, ids) && ids <= more && id in more
    ensures PtrSound(PtrAdded(ptr, vis, id), more)
  {
    var p := PtrAdded(ptr, vis, id);
    forall x | x in p
      ensures NoDups(p[x]) && forall j :: j in p[x] ==> j in more
    {
      PtrAddedAt(ptr, vis, id, x);
    }
  }

  lemma PtrAddedCovers(ptr: map<Addr, seq<nat>>, vis: set<Addr>, id: nat, j: nat, ips: set<Addr>)
    requires (j == id && ips == vis) || Covers(ptr, j, ips)
    ensures Covers(PtrAdded(ptr, vis, id), j, ips)
  {
    forall x | x in ips
      ensures j in PtrAt(PtrAdded(ptr, vis, id), x)
    {
      PtrAddedAt(ptr, vis, id, x);
    }
  }

  lemma RegisterOneCovers(t: Gateway, now: nat, id: nat, vis: set<Addr>)
    requires id in t.heap && vis == Visible(t.heap[id].ips, now)
    requires forall j :: j in t.heap && j != id ==> Covers(t.ptr, j, Visible(t.heap[j].ips, now))
    ensures PtrComplete(PtrAdded(t.ptr, vis, id), t.heap, now)
  {
    forall j | j in t.heap
      ensures Covers(PtrAdded(t.ptr, vis, id), j, Visible(t.heap[j].ips, now))
    {
      PtrAddedCovers(t.ptr, vis, id, j, Visible(t.heap[j].ips, now));
    }
  }

  lemma RegisterOneInv(s: Gateway, q: string, f: Family, ip: Addr, a: Answer, seenIps: set<string>, seenDoms: set<string>, now: nat)
    requires Inv(s, now) && Taken(s.alg, s.xlat, q, f, ip)
    ensures Inv(RegisterOne(s, Key(q, f), ip, a, seenIps, seenDoms, now), now)
  {
    var k := Key(q, f);
    var t := Filed(s, k, ip, a, seenIps, seenDoms, now);
    FiledTables(s, q, f, ip, a, seenIps, seenDoms, now);
    var id := t.alg[k].id;
    var vis := Visible(t.heap[id].ips, now);
    var u := RegisterOne(s, k, ip, a, seenIps, seenDoms, now);
    assert u == t.(ptr := PtrAdded(t.ptr, vis, id));
    PtrAddedSound(s.ptr, s.heap.Keys, t.heap.Keys, vis, id);
    RegisterOneCovers(t, now, id, vis);
  }

  /** Registering for one family leaves the other family's taken address as it was. */
  lemma RegisterOneFrame(s: Gateway, q: string, ip4: Addr, ip6: Addr, a: Answer, seenIps: set<string>, seenDoms: set<string>, now: nat)
    requires Taken(s.alg, s.xlat, q, Four, ip4) && Taken(s.alg, s.xlat, q, Six, ip6)
    ensures var t := RegisterOne(s, Key(q, Four), ip4, a, seenIps, seenDoms, now);
            Taken(t.alg, t.xlat, q, Six, ip6)
  {
    KeyInjective(q, Four, q, Six);
  }

  lemma RegisterInv(s: Gateway, m: Reply, ip4: Addr, ip6: Addr, sw: Sweeps, now: nat)
    requires Inv(s, now)
    requires ip4 != NoAddr ==> Taken(s.alg, s.xlat, m.q, Four, ip4)
    requires ip6 != NoAddr ==> Taken(s.alg, s.xlat, m.q, Six, ip6)
    ensures Inv(Register(s, m, ip4, ip6, sw, now).0, now)
  {
    if !NoTid(m.tid) {
      var s1 := s;
      if ip4 != NoAddr {
        var a := NewAnswer(m, Four, now);
        RegisterOneInv(s, m.q, Four, ip4, a, sw.ips4, sw.doms4, now);
        s1 := RegisterOne(s, Key(m.q, Four), ip4, a, sw.ips4, sw.doms4, now);
        if ip6 != NoAddr {
          RegisterOneFrame(s, m.q, ip4, ip6, a, sw.ips4, sw.doms4, now);
        }
      }
      if ip6 != NoAddr {
        RegisterOneInv(s1, m.q, Six, ip6, NewAnswer(m, Six, now), sw.ips6, sw.doms6, now);
      }
    }
  }

  // ---- The locked section of a query ----------------------------------------------------------

  /** What reaches registerLocked: a state that differs from `s` in lifetimes only, and addresses taken in it. */
  ghost predicate Ready(s: Gateway, p: Picked, q: string, now: nat) {
    && SameButTtl(s, p.s) && Inv(p.s, now)
    && (p.ip4 != NoAddr ==> Taken(s.alg, s.xlat, q, Four, p.ip4))
    && (p.ip6 != NoAddr ==> Taken(s.alg, s.xlat, q, Six, p.ip6))
  }

  lemma SameTrans(s: Gateway, t: Gateway, u: Gateway)
    requires SameButTtl(s, t) && SameButTtl(t, u)
    ensures SameButTtl(s, u)
  {
  }

  lemma TakeIfEffect(hash: string -> bv64, s: Gateway, t: Gateway, need: bool, q: string, f: Family, now: nat)
    requires SameButTtl(s, t) && Inv(t, now)
    ensures var (u, ip, ok) := TakeIf(hash, t, need, q, f, now);
            && SameButTtl(s, u) && Inv(u, now)
            && (ip != NoAddr ==> Taken(s.alg, s.xlat, q, f, ip))
            && (need ==> ok == (ip != NoAddr))
  {
    if need {
      TakeEffect(hash, t, q, f, now);
      SameTrans(s, t, Take(hash, t, q, f, now).0);
    }
  }

  lemma PickForRecordsReady(hash: string -> bv64, s: Gateway, m: Reply, now: nat)
    requires Inv(s, now)
    ensures var p := PickForRecords(hash, s, m, now);
            && Ready(s, p, m.q, now)
            && (p.ok && m.a4 != [] ==> p.ip4 != NoAddr) && (p.ok && m.a6 != [] ==> p.ip6 != NoAddr)
  {
    TakeIfEffect(hash, s, s, m.a6 != [], m.q, Six, now);
    var (s1, ip6, ok6) := TakeIf(hash, s, m.a6 != [], m.q, Six, now);
    TakeIfEffect(hash, s, s1, m.a4 != [], m.q, Four, now);
  }

  lemma PickForHintsReady(hash: string -> bv64, s: Gateway, p: Picked, m: Reply, now: nat)
    requires Ready(s, p, m.q, now)
    ensures var r := PickForHints(hash, p, m, now);
            && Ready(s, r, m.q, now)
            && (r.ok ==> p.ok)
            && (r.ok && (p.ip4 != NoAddr || m.h4 != []) ==> r.ip4 != NoAddr)
            && (r.ok && (p.ip6 != NoAddr || m.h6 != []) ==> r.ip6 != NoAddr)
  {
    if p.ok {
      TakeIfEffect(hash, s, p.s, m.h4 != [] && p.ip4 == NoAddr, m.q, Four, now);
      var (s1, ip4, ok4) := TakeIf(hash, p.s, m.h4 != [] && p.ip4 == NoAddr, m.q, Four, now);
      TakeIfEffect(hash, s, s1, m.h6 != [] && p.ip6 == NoAddr, m.q, Six, now);
    }
  }

  /** Picking changes lifetimes only; when it succeeds, every family with records or hints has an address. */
  lemma PickReady(hash: string -> bv64, s: Gateway, m: Reply, now: nat)
    requires Inv(s, now)
    ensures var p := Pick(hash, s, m, now);
            && Ready(s, p, m.q, now)
            && (p.ok && (m.a4 != [] || m.h4 != []) ==> p.ip4 != NoAddr)
            && (p.ok && (m.a6 != [] || m.h6 != []) ==> p.ip6 != NoAddr)
  {
    PickForRecordsReady(hash, s, m, now);
    PickForHintsReady(hash, s, PickForRecords(hash, s, m, now), m, now);
  }

  lemma AnsweredInv(hash: string -> bv64, s: Gateway, m: Reply, sw: Sweeps, now: nat)
    requires Inv(s, now)
    ensures Inv(Answered(hash, s, m, sw, now), now)
  {
    PickReady(hash, s, m, now);
    var p := Pick(hash, s, m, now);
    RegisterInv(p.s, m, p.ip4, p.ip6, sw, now);
  }

  // ---- Every run ------------------------------------------------------------------------------

  lemma InvLater(s: Gateway, now: nat, later: nat)
    requires Inv(s, now) && now <= later
    ensures Inv(s, later)
  {
    forall id | id in s.heap
      ensures Covers(s.ptr, id, Visible(s.heap[id].ips, later))
    {
      assert Covers(s.ptr, id, Visible(s.heap[id].ips, now));
      VisibleShrinks(s.heap[id].ips, now, later);
    }
  }

  lemma StopInv(s: Gateway, id: nat, a: Answer, now: nat)
    requires Inv(s, now) && id in s.heap
    requires Visible(a.ips, now) <= Visible(s.heap[id].ips, now)
    ensures Inv(s.(heap := s.heap[id := a]), now)
  {
    var h := s.heap[id := a];
    assert h.Keys == s.heap.Keys;
    forall j | j in h
      ensures Covers(s.ptr, j, Visible(h[j].ips, now))
    {
      assert Covers(s.ptr, j, Visible(s.heap[j].ips, now));
    }
  }

  lemma StepInv(hash: string -> bv64, s: Gateway, e: Event)
    requires Inv(s, e.now)
    ensures Inv(Step(hash, s, e), e.now)
  {
    match e
    case Reply_(m, sw, now) =>
      AnsweredInv(hash, s, m, sw, now);
    case StopIps(id, tid, seen, now) =>
      if id in s.heap {
        StopShowsNothingNew(s.heap[id].ips, tid, seen, now);
        StopInv(s, id, s.heap[id].(ips := StoppedIps(s.heap[id].ips, tid, seen, now)), now);
      }
    case StopDomains(id, tid, seen, now) =>
      if id in s.heap {
        StopInv(s, id, s.heap[id].(domains := StoppedDomains(s.heap[id].domains, tid, seen, now)), now);
      }
    case Clear(now) =>
  }

  /** The tables agree after any sequence of answers, transport stops and clears, at any later time. */
  lemma {:induction false} TablesAgree(hash: string -> bv64, es: seq<Event>, now: nat)
    requires Timed(es, now)
    ensures Inv(Run(hash, es), now)
  {
    if es != [] {
      var init, e := es[..|es| - 1], es[|es| - 1];
      assert Timed(init, e.now) by {
        assert forall i :: 0 <= i < |init| ==> init[i] == es[i];
      }
      TablesAgree(hash, init, e.now);
      StepInv(hash, Run(hash, init), e);
      InvLater(Run(hash, es), e.now, now);
    }
  }

  /** An address asked for again lives at least two minutes from now, and two minutes longer if it was alive. */
  lemma TakeExtends(hash: string -> bv64, s: Gateway, q: string, f: Family, now: nat)
    requires Inv(s, now) && Key(q, f) in s.alg
    ensures var t := Take(hash, s, q, f, now).0;
            var id := s.alg[Key(q, f)].id;
            && id in s.heap && id in t.heap
            && t.heap[id].ttl >= now + TTL_2M
            && (s.heap[id].ttl >= now && s.heap[id].ttl > 0 ==> t.heap[id].ttl == s.heap[id].ttl + TTL_2M)
  {
    KeyedAt(s.alg, q, f);
    assert s.xlat[s.alg[Key(q, f)].algip] in s.heap.Keys;
  }
}
