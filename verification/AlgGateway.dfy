/**
 The DNS gateway as a state machine. An answer object is named by an identifier into `heap`,
 so that `alg`, `xlat` (the source's `nat`) and `ptr` can share one, as they do by pointer.
 Every step reads the clock once; `hash` is the 64-bit string hash, whatever it is.
 */
module AlgGateway {
  import opened Common
  import opened AlgAddr
  import opened AlgAnswer

  const MAX_ITER: nat := 100

  datatype AlgEntry = AlgEntry(algip: Addr, id: nat)

  datatype Gateway = Gateway(
    alg: map<string, AlgEntry>,
    xlat: map<Addr, nat>,
    ptr: map<Addr, seq<nat>>,
    heap: map<nat, Answer>,
    next: nat)

  const EMPTY := Gateway(map[], map[], map[], map[], 0)

  function PtrAt(ptr: map<Addr, seq<nat>>, ip: Addr): seq<nat> {
    if ip in ptr then ptr[ip] else []
  }

  /** Files answer `id` under each of `ips` that does not have it yet. */
  function PtrAdded(ptr: map<Addr, seq<nat>>, ips: set<Addr>, id: nat): map<Addr, seq<nat>> {
    map ip | ip in ptr.Keys + ips :: if ip in ips && id !in PtrAt(ptr, ip) then PtrAt(ptr, ip) + [id] else PtrAt(ptr, ip)
  }

  function Erased(s: seq<nat>, id: nat): (r: seq<nat>)
    ensures id !in r
    ensures forall x :: x in r <==> x in s && x != id
  {
    if s == [] then [] else if s[0] == id then Erased(s[1..], id) else [s[0]] + Erased(s[1..], id)
  }

  /** ptrRemoveLocked over each of `ips`. */
  function PtrRemoved(ptr: map<Addr, seq<nat>>, ips: set<Addr>, id: nat): map<Addr, seq<nat>> {
    map ip | ip in ptr && (ip !in ips || Erased(ptr[ip], id) != []) :: if ip in ips then Erased(ptr[ip], id) else ptr[ip]
  }

  // ---- take4Locked / take6Locked ------------------------------------------------------------

  function Extended(ttl: nat, now: nat): nat {
    if ttl == 0 || now > ttl then now + TTL_2M else ttl + TTL_2M
  }

  /** The first candidate from `i` on that no answer uses, if one of the hundred is free. */
  function Probe(hash: string -> bv64, xlat: map<Addr, nat>, k: string, f: Family, i: nat): Addr
    decreases MAX_ITER - i
  {
    if i >= MAX_ITER then NoAddr
    else if Candidate(hash, k, f, i) !in xlat then Candidate(hash, k, f, i)
    else Probe(hash, xlat, k, f, i + 1)
  }

  /** Drops an entry whose address is of the wrong family. */
  function Evicted(s: Gateway, k: string, now: nat): Gateway
    requires k in s.alg && s.alg[k].id in s.heap
  {
    var e := s.alg[k];
    s.(alg := s.alg - {k}, xlat := s.xlat - {e.algip},
       ptr := PtrRemoved(s.ptr, Visible(s.heap[e.id].ips, now), e.id))
  }

  predicate Known(s: Gateway, k: string) {
    k in s.alg && s.alg[k].id in s.heap
  }

  /** The address for domain `q`: the one already issued, its life extended, or a free candidate. */
  function Take(hash: string -> bv64, s: Gateway, q: string, f: Family, now: nat): (Gateway, Addr) {
    var k := Key(q, f);
    if Known(s, k) && Is(s.alg[k].algip, f) then
      var id := s.alg[k].id;
      var a := s.heap[id];
      (s.(heap := s.heap[id := a.(ttl := Extended(a.ttl, now))]), s.alg[k].algip)
    else
      var s1 := if Known(s, k) then Evicted(s, k, now) else s;
      (s1, Probe(hash, s1.xlat, k, f, 0))
  }

  // ---- registerLocked -------------------------------------------------------------------------

  /** One DNS answer as it reaches the locked section of a query. */
  datatype Reply = Reply(
    q: string, tid: string, uid: string,
    a4: seq<Addr>, a6: seq<Addr>, h4: seq<Addr>, h6: seq<Addr>,
    substOk: bool, fixed: bool,
    ttl: nat, targets: seq<string>, sec: seq<Addr>, blocklists: string)

  /** Which `past` keys the four possible sweeps of a registration happen to visit. */
  datatype Sweeps = Sweeps(ips4: set<string>, doms4: set<string>, ips6: set<string>, doms6: set<string>)

  function Only(ips: seq<Addr>, f: Family): (r: seq<Addr>)
    ensures forall x :: x in r <==> x in ips && Is(x, f)
  {
    if ips == [] then [] else if Is(ips[0], f) then [ips[0]] + Only(ips[1..], f) else Only(ips[1..], f)
  }

  function Real(m: Reply): seq<Addr> {
    if m.fixed then [] else m.a6 + m.a4 + m.h4 + m.h6
  }

  function Secondary(m: Reply): seq<Addr> {
    if m.fixed then [] else m.sec
  }

  function Lifetime(ttl: nat): nat {
    Max(TTL_8S, ttl)
  }

  /** am4 / am6 */
  function NewAnswer(m: Reply, f: Family, now: nat): Answer {
    var until := now + Lifetime(m.ttl);
    Answer(NewIps(m.tid, m.uid, Only(Real(m), f), Only(Secondary(m), f), until, now),
           NewDomains(m.tid, m.uid, m.targets, until, now),
           m.blocklists,
           now + Max(TTL_2M, Lifetime(m.ttl)))
  }

  function Filed(s: Gateway, k: string, ip: Addr, a: Answer, seenIps: set<string>, seenDoms: set<string>, now: nat): Gateway {
    if Known(s, k) then
      var id := s.alg[k].id;
      s.(heap := s.heap[id := MergedAnswer(s.heap[id], a, seenIps, seenDoms, now)])
    else
      s.(alg := s.alg[k := AlgEntry(ip, s.next)], xlat := s.xlat[ip := s.next],
         heap := s.heap[s.next := a], next := s.next + 1)
  }

  /** One turn of the loop over the alg addresses: file the answer, then index what it shows. */
  function RegisterOne(s: Gateway, k: string, ip: Addr, a: Answer, seenIps: set<string>, seenDoms: set<string>, now: nat): Gateway {
    var s1 := Filed(s, k, ip, a, seenIps, seenDoms, now);
    var id := s1.alg[k].id;
    s1.(ptr := PtrAdded(s1.ptr, Visible(s1.heap[id].ips, now), id))
  }

  function Register(s: Gateway, m: Reply, algip4: Addr, algip6: Addr, sw: Sweeps, now: nat): (Gateway, bool) {
    if NoTid(m.tid) || (algip4 == NoAddr && algip6 == NoAddr) then (s, false)
    else
      var s1 := if algip4.V4? then RegisterOne(s, Key(m.q, Four), algip4, NewAnswer(m, Four, now), sw.ips4, sw.doms4, now) else s;
      var s2 := if algip6.V6? then RegisterOne(s1, Key(m.q, Six), algip6, NewAnswer(m, Six, now), sw.ips6, sw.doms6, now) else s1;
      (s2, algip4.V4? || algip6.V6?)
  }

  /** take, when there is something to take for; the address stays as it was otherwise. */
  function TakeIf(hash: string -> bv64, s: Gateway, need: bool, q: string, f: Family, now: nat): (Gateway, Addr, bool) {
    if !need then (s, NoAddr, true)
    else
      var (s1, ip) := Take(hash, s, q, f, now);
      (s1, ip, ip != NoAddr)
  }

  /** The addresses picked so far, and whether every one asked for could be had. */
  datatype Picked = Picked(s: Gateway, ip4: Addr, ip6: Addr, ok: bool)

  /** An address for the AAAA records, then one for the A records. */
  function PickForRecords(hash: string -> bv64, s: Gateway, m: Reply, now: nat): Picked {
    var (s1, ip6, ok6) := TakeIf(hash, s, m.a6 != [], m.q, Six, now);
    if !ok6 then Picked(s1, NoAddr, NoAddr, false) else
    var (s2, ip4, ok4) := TakeIf(hash, s1, m.a4 != [], m.q, Four, now);
    Picked(s2, ip4, ip6, ok4)
  }

  /** An address for each kind of SVCB hint whose family has none yet. */
  function PickForHints(hash: string -> bv64, p: Picked, m: Reply, now: nat): Picked {
    if !p.ok then p else
    var (s1, ip4, ok4) := TakeIf(hash, p.s, m.h4 != [] && p.ip4 == NoAddr, m.q, Four, now);
    if !ok4 then p.(s := s1, ok := false) else
    var (s2, ip6, ok6) := TakeIf(hash, s1, m.h6 != [] && p.ip6 == NoAddr, m.q, Six, now);
    Picked(s2, if p.ip4 != NoAddr then p.ip4 else ip4, if p.ip6 != NoAddr then p.ip6 else ip6, ok6)
  }

  function Pick(hash: string -> bv64, s: Gateway, m: Reply, now: nat): Picked {
    PickForHints(hash, PickForRecords(hash, s, m, now), m, now)
  }

  /** The locked section of a query: pick the alg addresses, substitute them, register the answer. */
  function Answered(hash: string -> bv64, s: Gateway, m: Reply, sw: Sweeps, now: nat): Gateway {
    var p := Pick(hash, s, m, now);
    if !p.ok || !m.substOk then p.s else Register(p.s, m, p.ip4, p.ip6, sw, now).0
  }

  // ---- Steps and runs -----------------------------------------------------------------------

  datatype Event =
    | Reply_(m: Reply, sw: Sweeps, now: nat)
    | StopIps(id: nat, tid: string, seen: set<string>, now: nat)
    | StopDomains(id: nat, tid: string, seen: set<string>, now: nat)
    | Clear(now: nat)

  function Step(hash: string -> bv64, s: Gateway, e: Event): Gateway {
    match e
    case Reply_(m, sw, now) => Answered(hash, s, m, sw, now)
    case StopIps(id, tid, seen, now) =>
      if id !in s.heap then s
      else s.(heap := s.heap[id := s.heap[id].(ips := StoppedIps(s.heap[id].ips, tid, seen, now))])
    case StopDomains(id, tid, seen, now) =>
      if id !in s.heap then s
      else s.(heap := s.heap[id := s.heap[id].(domains := StoppedDomains(s.heap[id].domains, tid, seen, now))])
    case Clear(now) => Gateway(map[], map[], map[], map[], s.next)
  }

  function Run(hash: string -> bv64, es: seq<Event>): Gateway {
    if es == [] then EMPTY else Step(hash, Run(hash, es[..|es| - 1]), es[|es| - 1])
  }

  /** The clock never goes back, and no event is later than `now`. */
  ghost predicate Timed(es: seq<Event>, now: nat) {
    && (forall i, j :: 0 <= i <= j < |es| ==> es[i].now <= es[j].now)
    && (forall i :: 0 <= i < |es| ==> es[i].now <= now)
  }
}
