/**
 The connection map: connections by connection id, with two reverse indexes from process id and user id
 to connection ids. Closed connections are collected in a log.
 */
module ConnMap {
  import opened Common
  import opened Slices

  datatype Stat = Stat(conns: seq<nat>, uid: string, pid: string)

  type Table = map<string, Stat>
  type Index = map<string, seq<string>>

  datatype State = State(tracc: Table, tracu: Index, tracp: Index, sz: int, closed: multiset<nat>)

  function Listed(ix: Index, key: string): seq<string> {
    if key in ix then ix[key] else []
  }

  // ---- The reverse indexes ---------------------------------------------------------------------

  function AddTo(ix: Index, key: string, cid: string): Index {
    if key == "" || cid == "" then ix else ix[key := Uniq(Listed(ix, key) + [cid])]
  }

  /** A list without its first occurrence of `cid`. */
  function Without(cids: seq<string>, cid: string): (r: seq<string>)
    ensures |r| <= |cids|
  {
    if cids == [] then []
    else if cids[|cids| - 1] == cid && cid !in cids[..|cids| - 1] then cids[..|cids| - 1]
    else Without(cids[..|cids| - 1], cid) + [cids[|cids| - 1]]
  }

  function DelFrom(ix: Index, key: string, cid: string): Index {
    if key == "" || key !in ix then ix
    else if cid == "" then ix - {key}
    else if cid !in ix[key] then ix
    else
      var rem := Without(ix[key], cid);
      if rem == [] then ix - {key} else ix[key := rem]
  }

  /** The key each connection id is filed under. */
  function Uids(t: Table): map<string, string> {
    map c | c in t :: t[c].uid
  }

  function Pids(t: Table): map<string, string> {
    map c | c in t :: t[c].pid
  }

  /** Nothing in the index but the ids filed under the key, once each. */
  ghost predicate Sound(ix: Index, of: map<string, string>) {
    forall k :: k in ix ==>
      k != "" && ix[k] != [] && NoDups(ix[k]) && forall c :: c in ix[k] ==> c != "" && c in of && of[c] == k
  }

  /** Nothing missing from the index. */
  ghost predicate Complete(ix: Index, of: map<string, string>) {
    forall c :: c in of && of[c] != "" ==> of[c] in ix && c in ix[of[c]]
  }

  /** The index is the inverse image of the table, without repeats or empty lists. */
  ghost predicate Inverse(ix: Index, of: map<string, string>) {
    Sound(ix, of) && Complete(ix, of)
  }

  lemma {:induction false} WithoutIs(cids: seq<string>, cid: string)
    requires NoDups(cids)
    ensures NoDups(Without(cids, cid))
    ensures forall c :: c in Without(cids, cid) <==> c in cids && c != cid
  {
    if cids != [] {
      var init, x := cids[..|cids| - 1], cids[|cids| - 1];
      assert cids == init + [x];
      assert x !in init;
      WithoutIs(init, cid);
      if x == cid {
        WithoutNone(init, cid);
      }
    }
  }

  lemma {:induction false} WithoutNone(cids: seq<string>, cid: string)
    requires cid !in cids
    ensures Without(cids, cid) == cids
  {
    if cids != [] {
      WithoutNone(cids[..|cids| - 1], cid);
    }
  }

  lemma UniqAdds(cids: seq<string>, cid: string)
    ensures Uniq(cids + [cid]) != []
    ensures forall c :: c in Uniq(cids + [cid]) <==> c in cids || c == cid
  {
    assert cid in cids + [cid];
  }

  lemma FiledSound(cids: seq<string>, of: map<string, string>, key: string, cid: string)
    requires cid != "" && cid !in of && forall c :: c in cids ==> c != "" && c in of && of[c] == key
    ensures var r := Uniq(cids + [cid]);
            r != [] && NoDups(r) && forall c :: c in r ==> c != "" && c in of[cid := key] && of[cid := key][c] == key
  {
    UniqAdds(cids, cid);
  }

  lemma AddSound(ix: Index, of: map<string, string>, key: string, cid: string)
    requires Sound(ix, of) && cid !in of && (cid == "" ==> key == "")
    ensures Sound(AddTo(ix, key, cid), of[cid := key])
  {
    if key != "" {
      FiledSound(Listed(ix, key), of, key, cid);
    }
  }

  lemma AddComplete(ix: Index, of: map<string, string>, key: string, cid: string)
    requires Complete(ix, of) && cid !in of && (cid == "" ==> key == "")
    ensures Complete(AddTo(ix, key, cid), of[cid := key])
  {
    if key != "" {
      UniqAdds(Listed(ix, key), cid);
    }
  }

  /** Filing an id again under its own key, or under no key, changes nothing that matters. */
  lemma ReAddInverse(ix: Index, of: map<string, string>, key: string, cid: string)
    requires Inverse(ix, of) && cid in of && (cid == "" || key == "" || key == of[cid])
    ensures Inverse(AddTo(ix, key, cid), of)
  {
    if key != "" && cid != "" {
      UniqAdds(Listed(ix, key), cid);
    }
  }

  lemma DelInverse(ix: Index, of: map<string, string>, cid: string)
    requires Inverse(ix, of) && cid in of
    ensures Inverse(DelFrom(ix, of[cid], cid), of - {cid})
  {
    var key := of[cid];
    if key != "" {
      WithoutIs(ix[key], cid);
      var rem := Without(ix[key], cid);
      if rem != [] {
        assert rem[0] in rem;
      }
      assert forall c :: c in of && of[c] == key && c != cid ==> c in rem;
    }
  }

  // ---- What is tracked -------------------------------------------------------------------------

  /** All tracked connections. */
  ghost function Live(t: Table): multiset<nat> {
    if t == map[] then multiset{}
    else
      var c :| c in t;
      Live(t - {c}) + multiset(t[c].conns)
  }

  /** Connections are counted the same whichever id is counted first. */
  lemma {:induction false} LiveWithout(t: Table, c: string)
    requires c in t
    ensures Live(t) == Live(t - {c}) + multiset(t[c].conns)
  {
    var d :| d in t && Live(t) == Live(t - {d}) + multiset(t[d].conns);
    if d != c {
      LiveWithout(t - {d}, c);
      LiveWithout(t - {c}, d);
      RemoveTwo(t, c, d);
    }
  }

  lemma RemoveTwo(t: Table, c: string, d: string)
    requires c in t && d in t && c != d
    ensures t - {d} - {c} == t - {c} - {d} && (t - {d})[c] == t[c] && (t - {c})[d] == t[d]
  {
  }

  lemma LiveWith(t: Table, c: string, s: Stat)
    requires c !in t
    ensures Live(t[c := s]) == Live(t) + multiset(s.conns)
  {
    LiveWithout(t[c := s], c);
    assert t[c := s] - {c} == t;
  }

  // ---- Operations ------------------------------------------------------------------------------

  function Added(s: State, cid: string, uid: string, pid: string, conns: seq<nat>): State {
    var stat := if cid in s.tracc then s.tracc[cid].(conns := s.tracc[cid].conns + conns) else Stat(conns, uid, pid);
    State(s.tracc[cid := stat], AddTo(s.tracu, uid, cid), AddTo(s.tracp, pid, cid), s.sz + |conns|, s.closed)
  }

  /** Closes and forgets one connection id. */
  function Dropped(s: State, cid: string): State
    requires cid in s.tracc
  {
    var v := s.tracc[cid];
    State(s.tracc - {cid}, DelFrom(s.tracu, v.uid, cid), DelFrom(s.tracp, v.pid, cid),
          s.sz - |v.conns|, s.closed + multiset(v.conns))
  }

  /** Drops a list of connection ids; the indexes only list tracked ids. */
  function DroppedAll(s: State, cids: seq<string>): State {
    if cids == [] then s
    else
      var r, cid := DroppedAll(s, cids[..|cids| - 1]), cids[|cids| - 1];
      if cid in r.tracc then Dropped(r, cid) else r
  }

  /** Untracks a connection id, or else all ids of a user, or else all ids of a process. */
  function Deleted(s: State, id: string): State {
    if id in s.tracc then Dropped(s, id)
    else if Listed(s.tracu, id) != [] then DroppedAll(s, s.tracu[id])
    else if Listed(s.tracp, id) != [] then DroppedAll(s, s.tracp[id])
    else s
  }

  function DeletedAll(s: State, ids: seq<string>): State {
    if ids == [] then s else Deleted(DeletedAll(s, ids[..|ids| - 1]), ids[|ids| - 1])
  }

  ghost function Cleared(s: State): State {
    State(map[], map[], map[], 0, s.closed + Live(s.tracc))
  }

  datatype Event =
    | Track(cid: string, uid: string, pid: string, conns: seq<nat>)
    | Untrack(id: string)
    | UntrackBatch(ids: seq<string>)
    | Clear

  ghost function Step(s: State, e: Event): State {
    match e
    case Track(cid, uid, pid, conns) => Added(s, cid, uid, pid, conns)
    case Untrack(id) => Deleted(s, id)
    case UntrackBatch(ids) => DeletedAll(s, ids)
    case Clear => Cleared(s)
  }

  ghost function Run(es: seq<Event>): State {
    if es == [] then State(map[], map[], map[], 0, multiset{}) else Step(Run(es[..|es| - 1]), es[|es| - 1])
  }

  // ---- Invariants ------------------------------------------------------------------------------

  ghost predicate Indexed(t: Table, tracu: Index, tracp: Index) {
    Inverse(tracu, Uids(t)) && Inverse(tracp, Pids(t))
  }

  /** Both indexes agree with the table, and the size is the number of tracked connections. */
  ghost predicate Inv(s: State) {
    Indexed(s.tracc, s.tracu, s.tracp) && s.sz == |Live(s.tracc)|
  }

  /** What a call to Track must respect for the indexes to stay exact. */
  predicate Respectful(t: Table, cid: string, uid: string, pid: string) {
    if cid in t then cid == "" || ((uid == "" || uid == t[cid].uid) && (pid == "" || pid == t[cid].pid))
    else cid == "" ==> uid == "" && pid == ""
  }

  lemma FreshKeepsKeys(t: Table, cid: string, s: Stat)
    requires cid !in t
    ensures Uids(t[cid := s]) == Uids(t)[cid := s.uid] && Pids(t[cid := s]) == Pids(t)[cid := s.pid]
  {
  }

  lemma GrownKeepsKeys(t: Table, cid: string, s: Stat)
    requires cid in t && s.uid == t[cid].uid && s.pid == t[cid].pid
    ensures Uids(t[cid := s]) == Uids(t) && Pids(t[cid := s]) == Pids(t)
  {
  }

  lemma DroppedKeepsKeys(t: Table, cid: string)
    ensures Uids(t - {cid}) == Uids(t) - {cid} && Pids(t - {cid}) == Pids(t) - {cid}
  {
  }

  lemma AddedIndexed(s: State, cid: string, uid: string, pid: string, conns: seq<nat>)
    requires Indexed(s.tracc, s.tracu, s.tracp) && Respectful(s.tracc, cid, uid, pid)
    ensures var r := Added(s, cid, uid, pid, conns); Indexed(r.tracc, r.tracu, r.tracp)
  {
    var r := Added(s, cid, uid, pid, conns);
    if cid in s.tracc {
      GrownKeepsKeys(s.tracc, cid, r.tracc[cid]);
      ReAddInverse(s.tracu, Uids(s.tracc), uid, cid);
      ReAddInverse(s.tracp, Pids(s.tracc), pid, cid);
    } else {
      FreshKeepsKeys(s.tracc, cid, Stat(conns, uid, pid));
      AddSound(s.tracu, Uids(s.tracc), uid, cid);
      AddComplete(s.tracu, Uids(s.tracc), uid, cid);
      AddSound(s.tracp, Pids(s.tracc), pid, cid);
      AddComplete(s.tracp, Pids(s.tracc), pid, cid);
    }
  }

  /** Filing an id under a key that is not its own shows up in the index. */
  lemma WrongKeyBreaks(ix: Index, of: map<string, string>, key: string, cid: string)
    requires key != "" && cid != "" && (cid !in of || of[cid] != key)
    ensures !Sound(AddTo(ix, key, cid), of)
  {
    UniqAdds(Listed(ix, key), cid);
    assert cid in AddTo(ix, key, cid)[key];
  }

  /** An empty connection id with a key is never filed. */
  lemma BlankBreaks(ix: Index, of: map<string, string>)
    requires "" in of && of[""] != ""
    ensures !Inverse(ix, of)
  {
  }

  /** Track keeps the indexes exact if and only if it is respectful. */
  lemma TrackKeepsIff(s: State, cid: string, uid: string, pid: string, conns: seq<nat>)
    requires Indexed(s.tracc, s.tracu, s.tracp)
    ensures var r := Added(s, cid, uid, pid, conns);
            Indexed(r.tracc, r.tracu, r.tracp) <==> Respectful(s.tracc, cid, uid, pid)
  {
    var r := Added(s, cid, uid, pid, conns);
    if Respectful(s.tracc, cid, uid, pid) {
      AddedIndexed(s, cid, uid, pid, conns);
    } else if cid in s.tracc {
      GrownKeepsKeys(s.tracc, cid, r.tracc[cid]);
      if uid != "" && uid != s.tracc[cid].uid {
        WrongKeyBreaks(s.tracu, Uids(s.tracc), uid, cid);
      } else {
        WrongKeyBreaks(s.tracp, Pids(s.tracc), pid, cid);
      }
    } else if uid != "" {
      BlankBreaks(r.tracu, Uids(r.tracc));
    } else {
      BlankBreaks(r.tracp, Pids(r.tracc));
    }
  }

  lemma AddedLive(s: State, cid: string, uid: string, pid: string, conns: seq<nat>)
    ensures Live(Added(s, cid, uid, pid, conns).tracc) == Live(s.tracc) + multiset(conns)
  {
    if cid in s.tracc {
      var v := s.tracc[cid];
      var w := v.(conns := v.conns + conns);
      LiveWithout(s.tracc, cid);
      LiveWithout(s.tracc[cid := w], cid);
      assert s.tracc[cid := w] - {cid} == s.tracc - {cid};
    } else {
      LiveWith(s.tracc, cid, Stat(conns, uid, pid));
    }
  }

  lemma AddedInv(s: State, cid: string, uid: string, pid: string, conns: seq<nat>)
    requires Inv(s) && Respectful(s.tracc, cid, uid, pid)
    ensures Inv(Added(s, cid, uid, pid, conns))
  {
    AddedIndexed(s, cid, uid, pid, conns);
    AddedLive(s, cid, uid, pid, conns);
  }

  lemma DroppedInv(s: State, cid: string)
    requires Inv(s) && cid in s.tracc
    ensures Inv(Dropped(s, cid))
    ensures Live(Dropped(s, cid).tracc) + Dropped(s, cid).closed == Live(s.tracc) + s.closed
  {
    DroppedKeepsKeys(s.tracc, cid);
    DelInverse(s.tracu, Uids(s.tracc), cid);
    DelInverse(s.tracp, Pids(s.tracc), cid);
    LiveWithout(s.tracc, cid);
  }

  lemma {:induction false} DroppedAllInv(s: State, cids: seq<string>)
    requires Inv(s)
    ensures Inv(DroppedAll(s, cids))
    ensures Live(DroppedAll(s, cids).tracc) + DroppedAll(s, cids).closed == Live(s.tracc) + s.closed
  {
    if cids != [] {
      var r := DroppedAll(s, cids[..|cids| - 1]);
      DroppedAllInv(s, cids[..|cids| - 1]);
      if cids[|cids| - 1] in r.tracc {
        DroppedInv(r, cids[|cids| - 1]);
      }
    }
  }

  lemma DeletedInv(s: State, id: string)
    requires Inv(s)
    ensures Inv(Deleted(s, id))
    ensures Live(Deleted(s, id).tracc) + Deleted(s, id).closed == Live(s.tracc) + s.closed
  {
    if id in s.tracc {
      DroppedInv(s, id);
    } else if Listed(s.tracu, id) != [] {
      DroppedAllInv(s, s.tracu[id]);
    } else if Listed(s.tracp, id) != [] {
      DroppedAllInv(s, s.tracp[id]);
    }
  }

  lemma {:induction false} DeletedAllInv(s: State, ids: seq<string>)
    requires Inv(s)
    ensures Inv(DeletedAll(s, ids))
    ensures Live(DeletedAll(s, ids).tracc) + DeletedAll(s, ids).closed == Live(s.tracc) + s.closed
  {
    if ids != [] {
      DeletedAllInv(s, ids[..|ids| - 1]);
      DeletedInv(DeletedAll(s, ids[..|ids| - 1]), ids[|ids| - 1]);
    }
  }

  /** Every Track of the run is respectful when it happens. */
  ghost predicate Proper(es: seq<Event>) {
    forall i :: 0 <= i < |es| && es[i].Track? ==> Respectful(Run(es[..i]).tracc, es[i].cid, es[i].uid, es[i].pid)
  }

  /** Every connection ever handed to Track. */
  function Tracked(es: seq<Event>): multiset<nat> {
    if es == [] then multiset{}
    else
      var e := es[|es| - 1];
      Tracked(es[..|es| - 1]) + if e.Track? then multiset(e.conns) else multiset{}
  }

  lemma StepKeeps(s: State, e: Event)
    requires Inv(s) && (e.Track? ==> Respectful(s.tracc, e.cid, e.uid, e.pid))
    ensures Inv(Step(s, e))
    ensures Live(Step(s, e).tracc) + Step(s, e).closed ==
            Live(s.tracc) + s.closed + if e.Track? then multiset(e.conns) else multiset{}
  {
    match e {
      case Track(cid, uid, pid, conns) =>
        AddedInv(s, cid, uid, pid, conns);
        AddedLive(s, cid, uid, pid, conns);
      case Untrack(id) => DeletedInv(s, id);
      case UntrackBatch(ids) => DeletedAllInv(s, ids);
      case Clear =>
    }
  }

  lemma ProperPrefix(es: seq<Event>)
    requires Proper(es) && es != []
    ensures Proper(es[..|es| - 1])
  {
    forall i | 0 <= i < |es| - 1 && es[i].Track?
      ensures Respectful(Run(es[..|es| - 1][..i]).tracc, es[i].cid, es[i].uid, es[i].pid)
    {
      assert es[..|es| - 1][..i] == es[..i];
    }
  }

  /** In every run the indexes are exact, the size is right, and each connection is tracked or was closed, once. */
  lemma {:induction false} EveryRunKeeps(es: seq<Event>)
    requires Proper(es)
    ensures Inv(Run(es))
    ensures Live(Run(es).tracc) + Run(es).closed == Tracked(es)
  {
    if es != [] {
      ProperPrefix(es);
      EveryRunKeeps(es[..|es| - 1]);
      StepKeeps(Run(es[..|es| - 1]), es[|es| - 1]);
    }
  }

  // ---- Untracking by user or process -----------------------------------------------------------

  lemma ToSetSnoc(cids: seq<string>)
    requires cids != []
    ensures ToSet(cids) == ToSet(cids[..|cids| - 1]) + {cids[|cids| - 1]}
  {
    assert cids == cids[..|cids| - 1] + [cids[|cids| - 1]];
  }

  lemma {:induction false} DroppedAllTable(s: State, cids: seq<string>)
    ensures DroppedAll(s, cids).tracc == s.tracc - ToSet(cids)
  {
    if cids != [] {
      DroppedAllTable(s, cids[..|cids| - 1]);
      ToSetSnoc(cids);
    }
  }

  /** Untracking a user that is not also a connection id removes all of the user's connections and no other. */
  lemma UntrackUser(s: State, uid: string)
    requires Inv(s) && uid !in s.tracc && uid in s.tracu
    ensures Deleted(s, uid).tracc == s.tracc - OfUser(s.tracc, uid).Keys
  {
    DroppedAllTable(s, s.tracu[uid]);
    MembersAre(s.tracu, Uids(s.tracc), uid);
  }

  /** The same for a process that is neither a connection id nor a user. */
  lemma UntrackProcess(s: State, pid: string)
    requires Inv(s) && pid !in s.tracc && pid !in s.tracu && pid in s.tracp
    ensures Deleted(s, pid).tracc == s.tracc - OfProcess(s.tracc, pid).Keys
  {
    DroppedAllTable(s, s.tracp[pid]);
    MembersAre(s.tracp, Pids(s.tracc), pid);
  }

  lemma MembersAre(ix: Index, of: map<string, string>, key: string)
    requires Inverse(ix, of) && key in ix
    ensures forall c :: c in of ==> (c in ToSet(ix[key]) <==> of[c] == key)
  {
  }

  // ---- Looking up ------------------------------------------------------------------------------

  /** The connections of a list of ids, one after the other. */
  function ConnsOf(t: Table, cids: seq<string>): seq<nat> {
    if cids == [] then []
    else
      var c := cids[|cids| - 1];
      ConnsOf(t, cids[..|cids| - 1]) + if c in t then t[c].conns else []
  }

  function GetAll(s: State, id: string): seq<nat> {
    if id == "" then [] else ConnsOf(s.tracc, Listed(s.tracp, id) + Listed(s.tracu, id))
  }

  /** The part of a table filed under a set of ids. */
  function Part(t: Table, cids: set<string>): Table {
    map c | c in t && c in cids :: t[c]
  }

  lemma PartWithout(t: Table, cids: set<string>, x: string)
    requires x !in cids
    ensures Part(t, cids + {x}) - {x} == Part(t, cids)
  {
  }

  lemma {:induction false} ConnsAreLive(t: Table, cids: seq<string>)
    requires NoDups(cids) && forall c :: c in cids ==> c in t
    ensures multiset(ConnsOf(t, cids)) == Live(Part(t, ToSet(cids)))
  {
    if cids == [] {
      assert Part(t, ToSet(cids)) == map[];
    } else {
      var init, x := cids[..|cids| - 1], cids[|cids| - 1];
      assert cids == init + [x];
      ConnsAreLive(t, init);
      ToSetSnoc(cids);
      LiveWithout(Part(t, ToSet(cids)), x);
      PartWithout(t, ToSet(init), x);
    }
  }

  function OfUser(t: Table, uid: string): Table {
    map c | c in t && t[c].uid == uid :: t[c]
  }

  function OfProcess(t: Table, pid: string): Table {
    map c | c in t && t[c].pid == pid :: t[c]
  }

  lemma UserPart(ix: Index, t: Table, uid: string)
    requires Inverse(ix, Uids(t)) && uid != ""
    ensures Part(t, ToSet(Listed(ix, uid))) == OfUser(t, uid)
  {
    if uid in ix {
      MembersAre(ix, Uids(t), uid);
    } else {
      assert forall c :: c in t ==> Uids(t)[c] != uid;
    }
  }

  /** Looking a user up finds exactly that user's connections, when no process has the same name. */
  lemma GetAllOfUser(s: State, uid: string)
    requires Inv(s) && uid !in s.tracp && uid != ""
    ensures multiset(GetAll(s, uid)) == Live(OfUser(s.tracc, uid))
  {
    var cids := Listed(s.tracu, uid);
    assert Listed(s.tracp, uid) + cids == cids;
    ConnsAreLive(s.tracc, cids);
    UserPart(s.tracu, s.tracc, uid);
  }

  // ---- What disrespect does --------------------------------------------------------------------

  lemma OtherKeyStays(ix: Index, key: string, other: string, cid: string)
    requires key != "" && cid != "" && other != key
    ensures var r := DelFrom(AddTo(ix, key, cid), other, cid); key in r && cid in r[key]
  {
    UniqAdds(Listed(ix, key), cid);
  }

  /** A connection id tracked again for another user stays in that user's list after it is untracked. */
  lemma StaleAfterRetrack(s: State, cid: string, uid: string, pid: string, conns: seq<nat>)
    requires cid in s.tracc && cid != "" && uid != "" && uid != s.tracc[cid].uid
    ensures var r := Deleted(Added(s, cid, uid, pid, conns), cid);
            cid !in r.tracc && uid in r.tracu && cid in r.tracu[uid]
  {
    OtherKeyStays(s.tracu, uid, s.tracc[cid].uid, cid);
  }

  /** Untracking an empty connection id wipes its user's whole list. */
  lemma BlankWipesUser(s: State, uid: string, pid: string, conns: seq<nat>)
    requires "" !in s.tracc && uid != ""
    ensures uid !in Deleted(Added(s, "", uid, pid, conns), "").tracu
  {
  }

  /** One connection of user "u". */
  function OneConn(): State {
    State(map["c" := Stat([1], "u", "")], map["u" := ["c"]], map[], 1, multiset{})
  }

  lemma OneConnInv()
    ensures Inv(OneConn())
  {
    var none: Table := map[];
    LiveWith(none, "c", Stat([1], "u", ""));
    assert none["c" := Stat([1], "u", "")] == OneConn().tracc;
  }

  /** A map in order that a Track of the same id for user "v" leaves with a stale entry. */
  lemma RetrackExample()
    ensures Inv(OneConn())
    ensures !Respectful(OneConn().tracc, "c", "v", "")
    ensures var r := Deleted(Added(OneConn(), "c", "v", "", []), "c"); "c" !in r.tracc && "v" in r.tracu && "c" in r.tracu["v"]
  {
    OneConnInv();
    StaleAfterRetrack(OneConn(), "c", "v", "", []);
  }

  // ---- When untracking ends ------------------------------------------------------------------------

  ghost predicate Unrepeated(ix: Index) {
    forall k :: k in ix ==> NoDups(ix[k])
  }

  /** The ids that untracking `id` goes on to untrack. */
  function Chosen(s: State, id: string): seq<string> {
    if id in s.tracc then [] else if Listed(s.tracu, id) != [] then s.tracu[id] else Listed(s.tracp, id)
  }

  /** They are all connection ids still tracked. */
  predicate Direct(s: State, id: string) {
    forall c :: c in Chosen(s, id) ==> c in s.tracc
  }

  /** The mutual recursion as written, cut off after `depth` looks into an index. */
  function Untracked(s: State, id: string, depth: nat): Option<State>
    decreases depth, 0
  {
    if id in s.tracc then Some(Dropped(s, id))
    else if Chosen(s, id) == [] then Some(s)
    else if depth == 0 then None
    else UntrackedAll(s, Chosen(s, id), depth - 1)
  }

  function UntrackedAll(s: State, ids: seq<string>, depth: nat): Option<State>
    decreases depth, |ids|
  {
    if ids == [] then Some(s)
    else
      match UntrackedAll(s, ids[..|ids| - 1], depth)
      case None => None
      case Some(r) => Untracked(r, ids[|ids| - 1], depth)
  }

  lemma {:induction false} TrackedBatch(s: State, cids: seq<string>, depth: nat)
    requires NoDups(cids) && forall c :: c in cids ==> c in s.tracc
    ensures UntrackedAll(s, cids, depth) == Some(DroppedAll(s, cids))
  {
    if cids != [] {
      var init, x := cids[..|cids| - 1], cids[|cids| - 1];
      assert cids == init + [x] && x !in init;
      TrackedBatch(s, init, depth);
      DroppedAllTable(s, init);
    }
  }

  /** Untracking ends, and does what it should, when the list it goes by holds tracked ids only, each once. */
  lemma DirectEnds(s: State, id: string, depth: nat)
    requires Direct(s, id) && NoDups(Chosen(s, id)) && depth > 0
    ensures Untracked(s, id, depth) == Some(Deleted(s, id))
  {
    if Chosen(s, id) != [] {
      TrackedBatch(s, Chosen(s, id), depth - 1);
    }
  }

  /** Which exact indexes always see to. */
  lemma InvDirect(s: State, id: string)
    requires Indexed(s.tracc, s.tracu, s.tracp)
    ensures Direct(s, id) && NoDups(Chosen(s, id)) && Unrepeated(s.tracu) && Unrepeated(s.tracp)
  {
  }

  lemma {:induction false} FirstBlocks(s: State, ids: seq<string>, depth: nat)
    requires ids != [] && Untracked(s, ids[0], depth).None?
    ensures UntrackedAll(s, ids, depth).None?
  {
    if |ids| > 1 {
      FirstBlocks(s, ids[..|ids| - 1], depth);
    } else {
      assert ids[..0] == [];
    }
  }

  /** Untracking never ends for a name that is not tracked and heads its own list. */
  lemma {:induction false} EndlessUntrack(s: State, id: string, depth: nat)
    requires id !in s.tracc && Chosen(s, id) != [] && Chosen(s, id)[0] == id
    ensures Untracked(s, id, depth).None?
  {
    if depth > 0 {
      EndlessUntrack(s, id, depth - 1);
      FirstBlocks(s, Chosen(s, id), depth - 1);
    }
  }

  // ---- When untracking ends after a Track without respect -----------------------------------------

  /** Untracking comes to an end. */
  ghost predicate Ends(s: State, id: string) {
    exists depth: nat :: Untracked(s, id, depth).Some?
  }

  /** An index is exact but for `cid`, which is not tracked and yet filed under `key`, last, unless that is empty. */
  ghost predicate StaleIn(ix: Index, of: map<string, string>, key: string, cid: string) {
    && cid != "" && cid !in of && Inverse(ix, of[cid := key])
    && (key != "" ==> key in ix && ix[key] != [] && ix[key][|ix[key]| - 1] == cid)
  }

  /** `cid` is left behind in the list of user `u` and of process `p`. */
  ghost predicate Stale(s: State, cid: string, u: string, p: string) {
    StaleIn(s.tracu, Uids(s.tracc), u, cid) && StaleIn(s.tracp, Pids(s.tracc), p, cid)
  }

  lemma DelStale(ix: Index, of: map<string, string>, key: string, cid: string, x: string)
    requires StaleIn(ix, of, key, cid) && x in of
    ensures StaleIn(DelFrom(ix, of[x], x), of - {x}, key, cid)
  {
    DelInverse(ix, of[cid := key], x);
    assert of[cid := key] - {x} == (of - {x})[cid := key];
  }

  lemma DropStale(s: State, cid: string, u: string, p: string, x: string)
    requires Stale(s, cid, u, p) && x in s.tracc
    ensures Stale(Dropped(s, x), cid, u, p) && Dropped(s, x).tracu.Keys <= s.tracu.Keys
    ensures forall k :: k != s.tracc[x].uid && k in s.tracu ==> k in Dropped(s, x).tracu
  {
    DelStale(s.tracu, Uids(s.tracc), u, cid, x);
    DelStale(s.tracp, Pids(s.tracc), p, cid, x);
    DroppedKeepsKeys(s.tracc, x);
  }

  /** Dropping a list of tracked ids leaves `cid` behind, makes no lists, and none but their own users' lists go. */
  lemma {:induction false} DropAllStale(s: State, cid: string, u: string, p: string, cids: seq<string>)
    requires Stale(s, cid, u, p)
    ensures Stale(DroppedAll(s, cids), cid, u, p) && DroppedAll(s, cids).tracu.Keys <= s.tracu.Keys
    ensures forall c :: c in DroppedAll(s, cids).tracc ==> c in s.tracc && DroppedAll(s, cids).tracc[c] == s.tracc[c]
    ensures forall k :: k in s.tracu && (forall c :: c in cids && c in s.tracc ==> s.tracc[c].uid != k) ==>
              k in DroppedAll(s, cids).tracu
  {
    if cids != [] {
      var init, x := cids[..|cids| - 1], cids[|cids| - 1];
      assert forall c :: c in init ==> c in cids;
      DropAllStale(s, cid, u, p, init);
      if x in DroppedAll(s, init).tracc {
        DropStale(DroppedAll(s, init), cid, u, p, x);
      }
    }
  }

  /** The list untracking goes by: distinct, last `cid` if it has it, and otherwise tracked ids. */
  lemma StaleChosen(s: State, cid: string, u: string, p: string, y: string)
    requires Stale(s, cid, u, p)
    ensures cid in Chosen(s, y) <==> y !in s.tracc && y != "" && (y == u || (y == p && y !in s.tracu))
    ensures NoDups(Chosen(s, y)) && forall c :: c in Chosen(s, y) ==> c == cid || c in s.tracc
    ensures cid in Chosen(s, y) ==> Chosen(s, y)[|Chosen(s, y)| - 1] == cid
    ensures y !in s.tracc && y in s.tracu ==> forall c :: c in Chosen(s, y) && c != cid ==> s.tracc[c].uid == y
  {
  }

  /** Up to `cid` its list is dropped, then `cid` itself is untracked. */
  lemma UpToStale(s: State, cid: string, u: string, p: string, y: string, depth: nat)
    requires Stale(s, cid, u, p) && cid in Chosen(s, y)
    ensures var l := Chosen(s, y);
            UntrackedAll(s, l, depth) == Untracked(DroppedAll(s, l[..|l| - 1]), cid, depth)
  {
    StaleChosen(s, cid, u, p, y);
    var l := Chosen(s, y);
    var init := l[..|l| - 1];
    assert l == init + [cid];
    assert cid !in init && forall c :: c in init ==> c in l;
    TrackedBatch(s, init, depth);
  }

  lemma StillChosen(s: State, cid: string, u: string, p: string, cids: seq<string>)
    requires Stale(s, cid, u, p) && cid in Chosen(s, cid)
    ensures Stale(DroppedAll(s, cids), cid, u, p) && cid in Chosen(DroppedAll(s, cids), cid)
  {
    DropAllStale(s, cid, u, p, cids);
    StaleChosen(s, cid, u, p, cid);
    StaleChosen(DroppedAll(s, cids), cid, u, p, cid);
  }

  lemma EndlessStep(s: State, cid: string, u: string, p: string, y: string, depth: nat, r: State)
    requires Stale(s, cid, u, p) && cid in Chosen(s, y) && depth > 0
    requires r == DroppedAll(s, Chosen(s, y)[..|Chosen(s, y)| - 1]) && Untracked(r, cid, depth - 1).None?
    ensures Untracked(s, y, depth).None?
  {
    UpToStale(s, cid, u, p, y, depth - 1);
  }

  /** Which never ends if untracking `cid` goes by a list that has it. */
  lemma {:induction false} StaleEndless(s: State, cid: string, u: string, p: string, y: string, depth: nat)
    requires Stale(s, cid, u, p) && cid in Chosen(s, y) && cid in Chosen(s, cid)
    ensures Untracked(s, y, depth).None?
    decreases depth
  {
    if depth > 0 {
      var init := Chosen(s, y)[..|Chosen(s, y)| - 1];
      var r := DroppedAll(s, init);
      StillChosen(s, cid, u, p, init);
      StaleEndless(r, cid, u, p, cid, depth - 1);
      EndlessStep(s, cid, u, p, y, depth, r);
    }
  }

  lemma NotChosenYet(s: State, cid: string, u: string, p: string, y: string)
    requires Stale(s, cid, u, p) && cid in Chosen(s, y) && cid !in Chosen(s, cid)
    ensures var l := Chosen(s, y);
            var r := DroppedAll(s, l[..|l| - 1]);
            Stale(r, cid, u, p) && cid !in Chosen(r, cid)
  {
    var l := Chosen(s, y);
    var init := l[..|l| - 1];
    StaleChosen(s, cid, u, p, y);
    StaleChosen(s, cid, u, p, cid);
    DropAllStale(s, cid, u, p, init);
    StaleChosen(DroppedAll(s, init), cid, u, p, cid);
    AllButLast(l, cid);
  }

  lemma AllButLast(l: seq<string>, x: string)
    requires NoDups(l) && l != [] && l[|l| - 1] == x
    ensures forall c :: c in l[..|l| - 1] ==> c in l && c != x
  {
    assert l == l[..|l| - 1] + [x];
  }

  lemma DirectOf(s: State, cid: string, u: string, p: string, y: string)
    requires Stale(s, cid, u, p) && cid !in Chosen(s, y)
    ensures Direct(s, y) && NoDups(Chosen(s, y))
  {
    StaleChosen(s, cid, u, p, y);
  }

  /** With one id left behind, untracking ends if and only if its list does not have that id, or that id's own
      list does not. */
  lemma StaleEndsIff(s: State, cid: string, u: string, p: string, y: string)
    requires Stale(s, cid, u, p)
    ensures Ends(s, y) <==> !(cid in Chosen(s, y) && cid in Chosen(s, cid))
  {
    if cid !in Chosen(s, y) {
      DirectOf(s, cid, u, p, y);
      DirectEnds(s, y, 2);
    } else if cid !in Chosen(s, cid) {
      NotChosenYet(s, cid, u, p, y);
      var l := Chosen(s, y);
      var r := DroppedAll(s, l[..|l| - 1]);
      UpToStale(s, cid, u, p, y, 1);
      DirectOf(r, cid, u, p, cid);
      DirectEnds(r, cid, 1);
      assert Untracked(s, y, 2) == UntrackedAll(s, l, 1);
    } else {
      forall depth: nat
        ensures Untracked(s, y, depth).None?
      {
        StaleEndless(s, cid, u, p, y, depth);
      }
    }
  }

  /** The key an id stays filed under when it is filed under `key`, and then removed from its own. */
  function LeftUnder(key: string, own: string): string {
    if key == own then "" else key
  }

  /** A fresh id is filed last. */
  lemma AddedLast(ix: Index, of: map<string, string>, key: string, cid: string)
    requires Inverse(ix, of) && cid !in of && cid != "" && key != ""
    ensures AddTo(ix, key, cid)[key] == Listed(ix, key) + [cid]
  {
    UniqSnoc(Listed(ix, key), cid);
    UniqOfNoDups(Listed(ix, key));
  }

  lemma OtherKeys(ix: Index, key: string, v: seq<string>, own: string, w: seq<string>)
    requires key != own
    ensures ix[key := v][own := w] == ix[own := w][key := v] && ix[key := v] - {own} == (ix - {own})[key := v]
  {
  }

  lemma DelKeepsList(ix: Index, key: string, own: string, cid: string)
    requires key != own
    ensures Listed(DelFrom(ix, own, cid), key) == Listed(ix, key)
  {
  }

  lemma AddDelCommute(ix: Index, key: string, own: string, cid: string)
    requires key != own
    ensures DelFrom(AddTo(ix, key, cid), own, cid) == AddTo(DelFrom(ix, own, cid), key, cid)
  {
    DelKeepsList(ix, key, own, cid);
    if key != "" && cid != "" && own in ix && cid in ix[own] {
      OtherKeys(ix, key, Uniq(Listed(ix, key) + [cid]), own, Without(ix[own], cid));
    }
  }

  lemma FiledElsewhere(d: Index, rest: map<string, string>, key: string, cid: string)
    requires Inverse(d, rest) && cid !in rest && cid != "" && key != ""
    ensures StaleIn(AddTo(d, key, cid), rest, key, cid)
  {
    AddSound(d, rest, key, cid);
    AddComplete(d, rest, key, cid);
    AddedLast(d, rest, key, cid);
  }

  lemma FiledNowhere(d: Index, rest: map<string, string>, cid: string)
    requires Inverse(d, rest) && cid !in rest && cid != ""
    ensures StaleIn(d, rest, "", cid)
  {
  }

  lemma MovedStale(ix: Index, of: map<string, string>, key: string, cid: string)
    requires Inverse(ix, of) && cid in of && cid != ""
    ensures StaleIn(DelFrom(AddTo(ix, key, cid), of[cid], cid), of - {cid}, LeftUnder(key, of[cid]), cid)
  {
    if key == "" || key == of[cid] {
      ReAddInverse(ix, of, key, cid);
      DelInverse(AddTo(ix, key, cid), of, cid);
      FiledNowhere(DelFrom(AddTo(ix, key, cid), of[cid], cid), of - {cid}, cid);
    } else {
      DelInverse(ix, of, cid);
      FiledElsewhere(DelFrom(ix, of[cid], cid), of - {cid}, key, cid);
      AddDelCommute(ix, key, of[cid], cid);
    }
  }

  /** Tracking a known id for another user or process, and untracking it, leaves it behind there. */
  lemma RetrackStale(s: State, cid: string, uid: string, pid: string, conns: seq<nat>)
    requires Indexed(s.tracc, s.tracu, s.tracp) && cid in s.tracc && cid != ""
    ensures Stale(Deleted(Added(s, cid, uid, pid, conns), cid), cid,
                  LeftUnder(uid, s.tracc[cid].uid), LeftUnder(pid, s.tracc[cid].pid))
  {
    var a := Added(s, cid, uid, pid, conns);
    MovedStale(s.tracu, Uids(s.tracc), uid, cid);
    MovedStale(s.tracp, Pids(s.tracc), pid, cid);
    GrownKeepsKeys(s.tracc, cid, a.tracc[cid]);
    DroppedKeepsKeys(a.tracc, cid);
  }

  /** An index lists tracked ids only, each once. */
  ghost predicate ListsTracked(ix: Index, t: Table) {
    forall k :: k in ix ==> NoDups(ix[k]) && forall c :: c in ix[k] ==> c in t
  }

  lemma AddListsTracked(ix: Index, t: Table, key: string, cid: string, stat: Stat)
    requires ListsTracked(ix, t)
    ensures ListsTracked(AddTo(ix, key, cid), t[cid := stat])
  {
    UniqAdds(Listed(ix, key), cid);
  }

  lemma ExactListsTracked(ix: Index, of: map<string, string>, t: Table)
    requires Sound(ix, of) && of.Keys == t.Keys
    ensures ListsTracked(ix, t)
  {
  }

  lemma ListsDirect(s: State, y: string)
    requires ListsTracked(s.tracu, s.tracc) && ListsTracked(s.tracp, s.tracc)
    ensures Direct(s, y) && NoDups(Chosen(s, y))
  {
  }

  /** After any Track on exact indexes, untracking ends. */
  lemma TrackedEnds(s: State, cid: string, uid: string, pid: string, conns: seq<nat>, y: string)
    requires Indexed(s.tracc, s.tracu, s.tracp)
    ensures Ends(Added(s, cid, uid, pid, conns), y)
  {
    var a := Added(s, cid, uid, pid, conns);
    ExactListsTracked(s.tracu, Uids(s.tracc), s.tracc);
    ExactListsTracked(s.tracp, Pids(s.tracc), s.tracc);
    AddListsTracked(s.tracu, s.tracc, uid, cid, a.tracc[cid]);
    AddListsTracked(s.tracp, s.tracc, pid, cid, a.tracc[cid]);
    ListsDirect(a, y);
    DirectEnds(a, y, 1);
  }

  lemma BlankDirect(s: State, uid: string, pid: string, conns: seq<nat>, y: string)
    requires Indexed(s.tracc, s.tracu, s.tracp)
    ensures var r := Deleted(Added(s, "", uid, pid, conns), "");
            Direct(r, y) && NoDups(Chosen(r, y)) && "" !in Chosen(r, y)
  {
  }

  lemma RespectfulDirect(s: State, cid: string, uid: string, pid: string, conns: seq<nat>, y: string)
    requires Indexed(s.tracc, s.tracu, s.tracp) && cid !in s.tracc && cid != ""
    ensures var r := Deleted(Added(s, cid, uid, pid, conns), cid);
            Direct(r, y) && NoDups(Chosen(r, y)) && cid !in Chosen(r, y)
  {
    var a := Added(s, cid, uid, pid, conns);
    AddedIndexed(s, cid, uid, pid, conns);
    DelInverse(a.tracu, Uids(a.tracc), cid);
    DelInverse(a.tracp, Pids(a.tracc), cid);
    DroppedKeepsKeys(a.tracc, cid);
    InvDirect(Deleted(a, cid), y);
  }

  /** Once an id has been tracked on exact indexes, for whatever user and process, and untracked, untracking a name
      ends if and only if its list does not have that id, or that id's own list does not. */
  lemma RetrackEndsIff(s: State, cid: string, uid: string, pid: string, conns: seq<nat>, y: string)
    requires Indexed(s.tracc, s.tracu, s.tracp)
    ensures var r := Deleted(Added(s, cid, uid, pid, conns), cid);
            Ends(r, y) <==> !(cid in Chosen(r, y) && cid in Chosen(r, cid))
  {
    var r := Deleted(Added(s, cid, uid, pid, conns), cid);
    if cid == "" {
      BlankDirect(s, uid, pid, conns, y);
      DirectEnds(r, y, 1);
    } else if cid in s.tracc {
      RetrackStale(s, cid, uid, pid, conns);
      StaleEndsIff(r, cid, LeftUnder(uid, s.tracc[cid].uid), LeftUnder(pid, s.tracc[cid].pid), y);
    } else {
      RespectfulDirect(s, cid, uid, pid, conns, y);
      DirectEnds(r, y, 1);
    }
  }

  /** A connection id tracked again for a user of its own name, and untracked, can never be untracked again. */
  lemma EndlessAfterRetrack(s: State, cid: string, pid: string, conns: seq<nat>, depth: nat)
    requires Indexed(s.tracc, s.tracu, s.tracp) && cid in s.tracc && cid != "" && s.tracc[cid].uid != cid
    ensures Untracked(Deleted(Added(s, cid, cid, pid, conns), cid), cid, depth).None?
  {
    var r, p := Deleted(Added(s, cid, cid, pid, conns), cid), LeftUnder(pid, s.tracc[cid].pid);
    RetrackStale(s, cid, cid, pid, conns);
    StaleChosen(r, cid, cid, p, cid);
    StaleEndless(r, cid, cid, p, cid, depth);
  }

  /** For one: the map of one connection. */
  lemma EndlessExample(depth: nat)
    ensures Untracked(Deleted(Added(OneConn(), "c", "c", "", []), "c"), "c", depth).None?
  {
    OneConnInv();
    EndlessAfterRetrack(OneConn(), "c", "", [], depth);
  }
}
