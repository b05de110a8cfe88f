/**
 The time-stamped answer store of the DNS gateway: `xips` keeps addresses and
 `xdomains` keeps names in exactly the same way, so the store is generic in its items.
 A transport's current answer sits in `pri`; what it displaces moves to `past`, which
 keeps it visible for a day. Times are milliseconds and 0 is the zero time.
 */
module ExpStore {
  import opened Common
  import opened Slices

  const STALE_THRES: nat := 86_400_000
  const VACUUM_INTERVAL: nat := 120_000
  const MAX_VACUUM_ITER: nat := 100

  datatype Entry<T> = Entry(items: seq<T>, ttl: nat, dob: nat)

  /** The value a missing key reads as. */
  function NoEntry<T>(): Entry<T> {
    Entry([], 0, 0)
  }

  function At<T>(m: map<string, Entry<T>>, k: string): Entry<T> {
    if k in m then m[k] else NoEntry()
  }

  predicate Fresh<T>(e: Entry<T>, now: nat) {
    e.ttl != 0 && e.ttl > now
  }

  predicate After<T>(a: Entry<T>, b: Entry<T>) {
    if a.dob == 0 then b.dob == 0 else a.dob > b.dob
  }

  predicate FresherThan<T>(a: Entry<T>, b: Entry<T>) {
    if a.ttl == 0 then b.ttl == 0 else a.ttl > b.ttl
  }

  predicate WithinStale<T>(e: Entry<T>, now: nat) {
    e.dob != 0 && now - e.dob <= STALE_THRES
  }

  function Alive<T>(e: Entry<T>, now: nat): seq<T> {
    if Fresh(e, now) then e.items else []
  }

  /** `pri` and `past` of one store, with the time `past` was last swept. */
  datatype Store<T> = Store(pri: map<string, Entry<T>>, past: map<string, Entry<T>>, lastVacuum: nat)

  /** The entry `past` holds after `v` is moved into it on top of `cur`. */
  function Relegated<T(==)>(cur: Entry<T>, v: Entry<T>, now: nat): Entry<T> {
    if WithinStale(cur, now)
    then Entry(Uniq(cur.items + v.items), cur.ttl, if cur.dob < v.dob then v.dob else cur.dob)
    else Entry(Uniq(v.items), v.ttl, v.dob)
  }

  /** What `pri` holds for a key after `qv` is merged onto `pv`. */
  function Joined<T(==)>(pv: Entry<T>, qv: Entry<T>, now: nat): Entry<T> {
    if !Fresh(pv, now) then qv
    else Entry(if !After(pv, qv) then Uniq(Alive(qv, now) + Alive(pv, now)) else Uniq(Alive(pv, now) + Alive(qv, now)),
               if !FresherThan(pv, qv) then qv.ttl else pv.ttl,
               if !After(pv, qv) then qv.dob else pv.dob)
  }

  /** The entry a merge displaces: the stale old one, or the new one when the old one stays. */
  function Displaced<T>(pv: Entry<T>, qv: Entry<T>, now: nat): Entry<T> {
    if !Fresh(pv, now) then pv else qv
  }

  predicate Captures<T>(pv: Entry<T>, qv: Entry<T>, now: nat) {
    var d := Displaced(pv, qv, now);
    |d.items| > 0 && WithinStale(d, now)
  }

  function MergedPri<T(==)>(pri: map<string, Entry<T>>, q: map<string, Entry<T>>, now: nat): map<string, Entry<T>> {
    map k | k in pri.Keys + q.Keys :: if k in q then Joined(At(pri, k), q[k], now) else pri[k]
  }

  predicate CapturedAt<T>(s: Store<T>, q: map<string, Entry<T>>, k: string, now: nat) {
    k in q && Captures(At(s.pri, k), q[k], now)
  }

  function PastAfter<T(==)>(s: Store<T>, q: map<string, Entry<T>>, k: string, now: nat): Entry<T> {
    if CapturedAt(s, q, k, now)
    then Relegated(At(s.past, k), Displaced(At(s.pri, k), At(q, k), now), now)
    else At(s.past, k)
  }

  function MergedPast<T(==)>(s: Store<T>, q: map<string, Entry<T>>, now: nat): map<string, Entry<T>> {
    map k | k in s.past.Keys + q.Keys && (k in s.past || CapturedAt(s, q, k, now)) :: PastAfter(s, q, k, now)
  }

  predicate VacuumDue(last: nat, now: nat) {
    last == 0 || now - last >= VACUUM_INTERVAL
  }

  /** A sweep that looked at the keys `seen`, chosen by map iteration. */
  function Vacuumed<T>(s: Store<T>, seen: set<string>, now: nat): Store<T> {
    if !VacuumDue(s.lastVacuum, now) then s
    else s.(past := map k | k in s.past && (k !in seen || WithinStale(s.past[k], now)) :: s.past[k], lastVacuum := now)
  }

  function Merged<T(==)>(s: Store<T>, q: map<string, Entry<T>>, seen: set<string>, now: nat): Store<T> {
    Vacuumed(Store(MergedPri(s.pri, q, now), MergedPast(s, q, now), s.lastVacuum), seen, now)
  }

  predicate Expires<T>(s: Store<T>, ks: set<string>, k: string, now: nat) {
    k in ks && k in s.pri && Fresh(s.pri[k], now)
  }

  /** Every fresh entry of `ks` expires now and is also moved to `past`; no sweep yet. */
  function Expired<T(==)>(s: Store<T>, ks: set<string>, now: nat): Store<T> {
    Store(
      map k | k in s.pri :: if Expires(s, ks, k, now) then s.pri[k].(ttl := now) else s.pri[k],
      map k | k in s.past.Keys + s.pri.Keys && (k in s.past || Expires(s, ks, k, now)) ::
        if Expires(s, ks, k, now) then Relegated(At(s.past, k), s.pri[k].(ttl := now), now) else s.past[k],
      s.lastVacuum)
  }

  function Removed<T(==)>(s: Store<T>, ks: set<string>, sweep: bool, seen: set<string>, now: nat): Store<T> {
    var e := Expired(s, ks, now);
    if sweep then Vacuumed(e, seen, now) else e
  }

  // ---- What a reader sees -------------------------------------------------------------

  /** The live items of a key. */
  function Live<T(==)>(pri: map<string, Entry<T>>, k: string, now: nat): set<T> {
    ToSet(Alive(At(pri, k), now))
  }

  /** The part of `past` still shown for a key. */
  function Remembered<T(==)>(s: Store<T>, k: string, now: nat): set<T> {
    if WithinStale(At(s.past, k), now) then ToSet(At(s.past, k).items) else {}
  }

  /** The "all" view of a key: its primary entry, expired or not, and what `past` remembers. */
  function View<T(==)>(s: Store<T>, k: string, now: nat): set<T> {
    ToSet(At(s.pri, k).items) + Remembered(s, k, now)
  }

  // ---- merge is a time-aware join -----------------------------------------------------

  /** For every key the live set after a merge is the union of both live sets. */
  lemma MergeJoinsLive<T>(s: Store<T>, q: map<string, Entry<T>>, seen: set<string>, now: nat, k: string)
    ensures Live(Merged(s, q, seen, now).pri, k, now) == Live(s.pri, k, now) + Live(q, k, now)
  {
    var pv, qv := At(s.pri, k), At(q, k);
    if k in q && Fresh(pv, now) {
      UniqUnion(Alive(qv, now), Alive(pv, now));
      UniqUnion(Alive(pv, now), Alive(qv, now));
    }
  }

  /** When both sides are live the joined entry carries the later expiry and the later birth. */
  lemma MergeTakesMaxima<T>(s: Store<T>, q: map<string, Entry<T>>, seen: set<string>, now: nat, k: string)
    requires k in q && Fresh(At(s.pri, k), now) && Fresh(q[k], now)
    ensures k in Merged(s, q, seen, now).pri
    ensures Merged(s, q, seen, now).pri[k].ttl == Max(At(s.pri, k).ttl, q[k].ttl)
    ensures Merged(s, q, seen, now).pri[k].dob == Max(At(s.pri, k).dob, q[k].dob)
  {
  }

  lemma RelegatedShows<T>(cur: Entry<T>, v: Entry<T>, now: nat)
    requires WithinStale(v, now)
    ensures WithinStale(Relegated(cur, v, now), now)
    ensures ToSet(Relegated(cur, v, now).items)
         == ToSet(v.items) + (if WithinStale(cur, now) then ToSet(cur.items) else {})
  {
    UniqUnion(cur.items, v.items);
    assert [] + v.items == v.items;
    UniqUnion([], v.items);
  }

  lemma VacuumKeepsView<T>(s: Store<T>, seen: set<string>, now: nat, k: string)
    ensures View(Vacuumed(s, seen, now), k, now) == View(s, k, now)
  {
  }

  lemma MergedAt<T>(s: Store<T>, q: map<string, Entry<T>>, now: nat, k: string)
    ensures At(MergedPri(s.pri, q, now), k) == if k in q then Joined(At(s.pri, k), q[k], now) else At(s.pri, k)
    ensures At(MergedPast(s, q, now), k) == PastAfter(s, q, k, now)
  {
  }

  lemma ExpiredAt<T>(s: Store<T>, ks: set<string>, now: nat, k: string)
    ensures At(Expired(s, ks, now).pri, k) == if Expires(s, ks, k, now) then s.pri[k].(ttl := now) else At(s.pri, k)
    ensures At(Expired(s, ks, now).past, k)
         == if Expires(s, ks, k, now) then Relegated(At(s.past, k), s.pri[k].(ttl := now), now) else At(s.past, k)
  {
  }

  /** The view of a key, read off its two entries. */
  function Shown<T(==)>(pri: Entry<T>, past: Entry<T>, now: nat): set<T> {
    ToSet(pri.items) + if WithinStale(past, now) then ToSet(past.items) else {}
  }

  lemma JoinedItems<T>(pv: Entry<T>, qv: Entry<T>, now: nat)
    requires Fresh(pv, now)
    ensures ToSet(Joined(pv, qv, now).items) == ToSet(pv.items) + ToSet(Alive(qv, now))
  {
    UniqUnion(Alive(qv, now), Alive(pv, now));
    UniqUnion(Alive(pv, now), Alive(qv, now));
  }

  lemma JoinShows<T>(pv: Entry<T>, qv: Entry<T>, cur: Entry<T>, now: nat)
    ensures var past := if Captures(pv, qv, now) then Relegated(cur, Displaced(pv, qv, now), now) else cur;
            Shown(Joined(pv, qv, now), past, now)
            == (if Fresh(pv, now)
                then ToSet(pv.items) + (if Fresh(qv, now) || WithinStale(qv, now) then ToSet(qv.items) else {})
                else ToSet(qv.items) + (if WithinStale(pv, now) then ToSet(pv.items) else {}))
             + (if WithinStale(cur, now) then ToSet(cur.items) else {})
  {
    if Captures(pv, qv, now) {
      RelegatedShows(cur, Displaced(pv, qv, now), now);
    }
    if Fresh(pv, now) {
      JoinedItems(pv, qv, now);
    }
  }

  /** What one key shows after a merge, in terms of what both sides held before. */
  lemma MergeView<T>(s: Store<T>, q: map<string, Entry<T>>, seen: set<string>, now: nat, k: string)
    ensures View(Merged(s, q, seen, now), k, now)
         == if k !in q then View(s, k, now)
            else
              (if Fresh(At(s.pri, k), now)
               then ToSet(At(s.pri, k).items) + (if Fresh(q[k], now) || WithinStale(q[k], now) then ToSet(q[k].items) else {})
               else ToSet(q[k].items) + (if WithinStale(At(s.pri, k), now) then ToSet(At(s.pri, k).items) else {}))
              + Remembered(s, k, now)
  {
    var m := Store(MergedPri(s.pri, q, now), MergedPast(s, q, now), s.lastVacuum);
    VacuumKeepsView(m, seen, now, k);
    MergedAt(s, q, now, k);
    if k in q {
      JoinShows(At(s.pri, k), q[k], At(s.past, k), now);
    }
  }

  /** Exactly when an item drops out of the "all" view: its entry had expired, was born over a
      day ago, and neither the incoming answer nor `past` names it. */
  lemma MergeLosesExactly<T>(s: Store<T>, q: map<string, Entry<T>>, seen: set<string>, now: nat, k: string, x: T)
    requires x in View(s, k, now)
    ensures x !in View(Merged(s, q, seen, now), k, now) <==>
            && k in q
            && !Fresh(At(s.pri, k), now)
            && !WithinStale(At(s.pri, k), now)
            && x !in q[k].items
            && x !in Remembered(s, k, now)
  {
    MergeView(s, q, seen, now, k);
  }

  /** Stopping a transport expires its entries and leaves every view as it was. */
  lemma RemoveKeepsView<T>(s: Store<T>, ks: set<string>, sweep: bool, seen: set<string>, now: nat, k: string)
    ensures View(Removed(s, ks, sweep, seen, now), k, now) == View(s, k, now)
    ensures Live(Removed(s, ks, sweep, seen, now).pri, k, now) == if k in ks then {} else Live(s.pri, k, now)
  {
    VacuumKeepsView(Expired(s, ks, now), seen, now, k);
    ExpiredAt(s, ks, now, k);
    if Expires(s, ks, k, now) {
      var v := s.pri[k].(ttl := now);
      if WithinStale(v, now) {
        RelegatedShows(At(s.past, k), v, now);
      } else {
        UniqUnion(At(s.past, k).items, v.items);
      }
    }
  }

  lemma ViewShrinks<T>(s: Store<T>, k: string, now: nat, later: nat)
    requires now <= later
    ensures View(s, k, later) <= View(s, k, now)
  {
  }

  // ---- Whole runs -----------------------------------------------------------------------

  datatype Op<T> =
    | MergeOp(q: map<string, Entry<T>>, seen: set<string>, now: nat)
    | RemoveOp(ks: set<string>, sweep: bool, seen: set<string>, now: nat)

  function Apply<T(==)>(s: Store<T>, op: Op<T>): Store<T> {
    match op
    case MergeOp(q, seen, now) => Merged(s, q, seen, now)
    case RemoveOp(ks, sweep, seen, now) => Removed(s, ks, sweep, seen, now)
  }

  function RunOps<T(==)>(s: Store<T>, ops: seq<Op<T>>): Store<T> {
    if ops == [] then s else Apply(RunOps(s, ops[..|ops| - 1]), ops[|ops| - 1])
  }

  ghost predicate Before<T>(ops: seq<Op<T>>, end: nat) {
    forall i :: 0 <= i < |ops| ==> ops[i].now <= end
  }

  /** `x` sits under `k` in an entry born at `born` or later. */
  predicate Holds<T(==)>(s: Store<T>, k: string, x: T, born: nat) {
    || (x in At(s.pri, k).items && At(s.pri, k).dob >= born)
    || (x in At(s.past, k).items && At(s.past, k).dob >= born)
  }

  lemma RelegatedHolds<T>(cur: Entry<T>, v: Entry<T>, now: nat, x: T, born: nat)
    requires born > 0 && now <= born + STALE_THRES
    requires (x in cur.items && cur.dob >= born) || (x in v.items && v.dob >= born)
    ensures x in Relegated(cur, v, now).items && Relegated(cur, v, now).dob >= born
  {
    assert x in cur.items + v.items;
  }

  lemma VacuumHolds<T>(s: Store<T>, seen: set<string>, now: nat, k: string, x: T, born: nat)
    requires born > 0 && now <= born + STALE_THRES && Holds(s, k, x, born)
    ensures Holds(Vacuumed(s, seen, now), k, x, born)
  {
  }

  lemma ApplyHolds<T>(s: Store<T>, op: Op<T>, k: string, x: T, born: nat)
    requires born > 0 && Holds(s, k, x, born) && op.now <= born + STALE_THRES
    ensures Holds(Apply(s, op), k, x, born)
  {
    var pv, cur := At(s.pri, k), At(s.past, k);
    match op
    case MergeOp(q, seen, now) =>
      MergedAt(s, q, now, k);
      if k in q && Fresh(pv, now) {
        JoinedItems(pv, q[k], now);
        assert x in pv.items ==> x in ToSet(pv.items);
      }
      if k in q && Captures(pv, q[k], now) && (x !in pv.items || pv.dob < born || !Fresh(pv, now)) {
        RelegatedHolds(cur, Displaced(pv, q[k], now), now, x, born);
      }
      VacuumHolds(Store(MergedPri(s.pri, q, now), MergedPast(s, q, now), s.lastVacuum), seen, now, k, x, born);
    case RemoveOp(ks, sweep, seen, now) =>
      ExpiredAt(s, ks, now, k);
      if Expires(s, ks, k, now) {
        RelegatedHolds(cur, pv.(ttl := now), now, x, born);
      }
      VacuumHolds(Expired(s, ks, now), seen, now, k, x, born);
  }

  /** However many merges, stops and sweeps follow, an item of an entry born at `born` is shown
      for a full day after that birth. */
  lemma {:induction false} ShownForADay<T>(s: Store<T>, ops: seq<Op<T>>, k: string, x: T, born: nat, now: nat)
    requires k in s.pri && x in s.pri[k].items && s.pri[k].dob == born && born > 0
    requires now <= born + STALE_THRES && Before(ops, now)
    ensures x in View(RunOps(s, ops), k, now)
  {
    RunHolds(s, ops, k, x, born, now);
  }

  lemma {:induction false} RunHolds<T>(s: Store<T>, ops: seq<Op<T>>, k: string, x: T, born: nat, now: nat)
    requires Holds(s, k, x, born) && born > 0
    requires now <= born + STALE_THRES && Before(ops, now)
    ensures Holds(RunOps(s, ops), k, x, born)
  {
    if ops != [] {
      RunHolds(s, ops[..|ops| - 1], k, x, born, now);
      ApplyHolds(RunOps(s, ops[..|ops| - 1]), ops[|ops| - 1], k, x, born);
    }
  }

  /** For one: an address that expired and was born over a day ago leaves the view when a new answer without
      it arrives. */
  lemma StaleIsDropped()
    ensures var s := Store(map["t" := Entry([1], 5, 1)], map[], 0);
            var q, now := map["t" := Entry([2], STALE_THRES + 20, STALE_THRES + 10)], STALE_THRES + 10;
            1 in View(s, "t", now) && 1 !in View(Merged(s, q, {}, now), "t", now)
  {
    var s := Store(map["t" := Entry([1], 5, 1)], map[], 0);
    var q, now := map["t" := Entry([2], STALE_THRES + 20, STALE_THRES + 10)], STALE_THRES + 10;
    MergeLosesExactly(s, q, {}, now, "t", 1);
  }
}
