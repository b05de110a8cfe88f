/** One gateway answer: real addresses by transport, blocking addresses by transport and app, names. */
module AlgAnswer {
  import opened Common
  import opened Slices
  import opened ExpStore
  import opened AlgAddr

  const NO_TRANSPORT := "NoTransport"
  const UNKNOWN_UID := "-1"
  const TTL_8S: nat := 8_000
  const TTL_2M: nat := 120_000

  /** xips: primary addresses with their past, and secondary (aux) addresses keyed by transport and app. */
  datatype Ips = Ips(store: Store<Addr>, aux: map<string, Entry<Addr>>)

  /** baseans */
  datatype Answer = Answer(ips: Ips, domains: Store<string>, blocklists: string, ttl: nat)

  predicate HasPrefix(s: string, p: string) {
    |p| <= |s| && s[..|p|] == p
  }

  predicate HasSuffix(s: string, p: string) {
    |p| <= |s| && s[|s| - |p|..] == p
  }

  predicate NoTid(tid: string) {
    tid == "" || tid == NO_TRANSPORT
  }

  function UidOr(uid: string): string {
    if uid == "" then UNKNOWN_UID else uid
  }

  function One<T>(k: string, items: seq<T>, ttl: nat, now: nat): map<string, Entry<T>> {
    if items == [] then map[] else map[k := Entry(items, ttl, now)]
  }

  function NewIps(tid: string, uid: string, pri: seq<Addr>, sec: seq<Addr>, ttl: nat, now: nat): Ips {
    Ips(Store(One(tid, pri, ttl, now), map[], 0), One(tid + UidOr(uid), sec, ttl, now))
  }

  function NewDomains(tid: string, uid: string, names: seq<string>, ttl: nat, now: nat): Store<string> {
    Store(One(tid + UidOr(uid), names, ttl, now), map[], 0)
  }

  function MergedIps(p: Ips, q: Ips, seen: set<string>, now: nat): Ips {
    Ips(Merged(p.store, q.store.pri, seen, now), MergedPri(p.aux, q.aux, now))
  }

  /** algans.merge: `b` merged into `a`. */
  function MergedAnswer(a: Answer, b: Answer, seenIps: set<string>, seenDoms: set<string>, now: nat): Answer {
    Answer(MergedIps(a.ips, b.ips, seenIps, now),
           Merged(a.domains, b.domains.pri, seenDoms, now),
           b.blocklists,
           if (if b.ttl == 0 then a.ttl == 0 else b.ttl > a.ttl) then b.ttl else a.ttl)
  }

  predicate AuxExpires(aux: map<string, Entry<Addr>>, tid: string, k: string, now: nat) {
    k in aux && Fresh(aux[k], now) && HasPrefix(k, tid)
  }

  function ExpiredAux(aux: map<string, Entry<Addr>>, tid: string, now: nat): map<string, Entry<Addr>> {
    map k | k in aux :: if AuxExpires(aux, tid, k, now) then aux[k].(ttl := now) else aux[k]
  }

  predicate StopsAny(p: Ips, tid: string, now: nat) {
    || (tid in p.store.pri && Fresh(p.store.pri[tid], now))
    || exists k :: k in p.aux && AuxExpires(p.aux, tid, k, now)
  }

  /** xips.rmv */
  function StoppedIps(p: Ips, tid: string, seen: set<string>, now: nat): Ips {
    if NoTid(tid) then p
    else Ips(Removed(p.store, {tid}, StopsAny(p, tid, now), seen, now), ExpiredAux(p.aux, tid, now))
  }

  function Prefixed(p: Store<string>, tid: string): set<string> {
    set k | k in p.pri && HasPrefix(k, tid)
  }

  /** xdomains.rmv */
  function StoppedDomains(p: Store<string>, tid: string, seen: set<string>, now: nat): Store<string> {
    if NoTid(tid) then p
    else Removed(p, Prefixed(p, tid), exists k :: k in p.pri && Expires(p, Prefixed(p, tid), k, now), seen, now)
  }

  // ---- Reading an answer ----------------------------------------------------------------

  /** allips over the primary entries: the live ones, or all of them and what `past` remembers. */
  function AllPrimary(p: Ips, alive: bool, now: nat): set<Addr> {
    if alive then set k, x | k in p.store.pri && x in Live(p.store.pri, k, now) :: x
    else set k, x | k in p.store.pri.Keys + p.store.past.Keys && x in View(p.store, k, now) :: x
  }

  function AllSecondary(p: Ips): set<Addr> {
    set k, x | k in p.aux && x in p.aux[k].items :: x
  }

  /** each: every address the answer still shows. */
  function Visible(p: Ips, now: nat): set<Addr> {
    AllPrimary(p, false, now) + AllSecondary(p)
  }

  /** zz: an app whose live secondary addresses hold an unspecified one is blocked. */
  predicate Blocked(p: Ips, uid: string, now: nat) {
    exists k, x :: k in p.aux && HasSuffix(k, UidOr(uid)) && x in Live(p.aux, k, now) && IsUnspecified(x)
  }

  function RealIps(p: Ips, uid: string, alive: bool, now: nat): set<Addr> {
    AllPrimary(p, alive, now) + if Blocked(p, uid, now) then {ANY4, ANY6} else {}
  }

  function RealIpsFor(p: Ips, tid: string, alive: bool, now: nat): set<Addr> {
    if NoTid(tid) then AllPrimary(p, alive, now)
    else if alive then Live(p.store.pri, tid, now)
    else ToSet(At(p.store.pri, tid).items)
  }

  // ---- Visibility under each operation ----------------------------------------------------

  lemma InPrimary(p: Ips, now: nat, x: Addr)
    ensures x in AllPrimary(p, false, now) <==> exists k :: x in View(p.store, k, now)
    ensures x in AllPrimary(p, true, now) <==> exists k :: x in Live(p.store.pri, k, now)
  {
    forall k | x in View(p.store, k, now)
      ensures k in p.store.pri.Keys + p.store.past.Keys
    {
    }
    forall k | x in Live(p.store.pri, k, now)
      ensures k in p.store.pri
    {
    }
  }

  /** Nothing becomes visible as time passes. */
  lemma VisibleShrinks(p: Ips, now: nat, later: nat)
    requires now <= later
    ensures Visible(p, later) <= Visible(p, now)
  {
    forall x | x in AllPrimary(p, false, later)
      ensures x in AllPrimary(p, false, now)
    {
      InPrimary(p, later, x);
      var k :| x in View(p.store, k, later);
      ViewShrinks(p.store, k, now, later);
      InPrimary(p, now, x);
    }
  }

  /** Stopping a transport shows no new address. */
  lemma StopShowsNothingNew(p: Ips, tid: string, seen: set<string>, now: nat)
    ensures Visible(StoppedIps(p, tid, seen, now), now) <= Visible(p, now)
  {
    var r := StoppedIps(p, tid, seen, now);
    if !NoTid(tid) {
      forall x | x in AllPrimary(r, false, now)
        ensures x in AllPrimary(p, false, now)
      {
        InPrimary(r, now, x);
        var k :| x in View(r.store, k, now);
        RemoveKeepsView(p.store, {tid}, StopsAny(p, tid, now), seen, now, k);
        InPrimary(p, now, x);
      }
      assert AllSecondary(r) <= AllSecondary(p);
    }
  }

  /** Merging answers joins the live addresses of every transport, the live secondary addresses and the live
      names, keeps the longer lifetime, and takes over the newer blocklists. */
  lemma AnswerJoins(a: Answer, b: Answer, seenIps: set<string>, seenDoms: set<string>, now: nat, k: string)
    ensures var m := MergedAnswer(a, b, seenIps, seenDoms, now);
            && Live(m.ips.store.pri, k, now) == Live(a.ips.store.pri, k, now) + Live(b.ips.store.pri, k, now)
            && Live(m.ips.aux, k, now) == Live(a.ips.aux, k, now) + Live(b.ips.aux, k, now)
            && Live(m.domains.pri, k, now) == Live(a.domains.pri, k, now) + Live(b.domains.pri, k, now)
            && m.ttl == Max(a.ttl, b.ttl) && m.blocklists == b.blocklists
  {
    MergeJoinsLive(a.ips.store, b.ips.store.pri, seenIps, now, k);
    MergeJoinsLive(Store(a.ips.aux, map[], 0), b.ips.aux, {}, now, k);
    MergeJoinsLive(a.domains, b.domains.pri, seenDoms, now, k);
  }

  /** Stopping a transport leaves none of its addresses alive, primary or secondary, and no other's dead. */
  lemma StopSilences(p: Ips, tid: string, seen: set<string>, now: nat, k: string)
    requires !NoTid(tid)
    ensures var r := StoppedIps(p, tid, seen, now);
            && Live(r.store.pri, k, now) == (if k == tid then {} else Live(p.store.pri, k, now))
            && Live(r.aux, k, now) == if HasPrefix(k, tid) then {} else Live(p.aux, k, now)
  {
    RemoveKeepsView(p.store, {tid}, StopsAny(p, tid, now), seen, now, k);
  }

  /** The same for its names, which are filed by transport and app. */
  lemma StopSilencesNames(p: Store<string>, tid: string, seen: set<string>, now: nat, k: string)
    requires !NoTid(tid)
    ensures Live(StoppedDomains(p, tid, seen, now).pri, k, now) == if HasPrefix(k, tid) then {} else Live(p.pri, k, now)
    ensures View(StoppedDomains(p, tid, seen, now), k, now) == View(p, k, now)
  {
    RemoveKeepsView(p, Prefixed(p, tid), exists j :: j in p.pri && Expires(p, Prefixed(p, tid), j, now), seen, now, k);
  }
}
