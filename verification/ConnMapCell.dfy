/** The connection map as it runs: maps updated in place, deletion by mutual recursion. */
module ConnMapCell {
  import opened Slices
  import opened ConnMap

  lemma {:induction false} WithoutAt(cids: seq<string>, i: nat)
    requires NoDups(cids) && i < |cids|
    ensures Without(cids, cids[i]) == cids[..i] + cids[i + 1..]
  {
    var init, x := cids[..|cids| - 1], cids[|cids| - 1];
    if i < |cids| - 1 {
      WithoutAt(init, i);
      assert cids[i] == init[i] != x;
      assert init[i + 1..] + [x] == cids[i + 1..] && init[..i] == cids[..i];
    } else {
      assert cids[i + 1..] == [];
    }
  }

  /** The in-place delete: the loop keeps reading the shifted list, whose freed tail is blank. */
  method DeleteFrom(cids: seq<string>, cid: string) returns (found: bool, rem: seq<string>)
    requires NoDups(cids) && cid != ""
    ensures found == (cid in cids)
    ensures found ==> rem == Without(cids, cid)
  {
    var buf := cids;
    found, rem := false, [];
    var i := 0;
    while i < |cids|
      invariant i <= |cids| == |buf|
      invariant !found ==> buf == cids && cid !in cids[..i]
      invariant found ==> cid in cids && cid !in buf && rem == Without(cids, cid)
    {
      if buf[i] == cid {
        found := true;
        WithoutAt(cids, i);
        WithoutIs(cids, cid);
        buf := buf[..i] + buf[i + 1..] + [""];
        rem := buf[..|cids| - 1];
        if rem == [] {
          break;
        }
      }
      i := i + 1;
    }
  }

  lemma DroppedIs(s: State, cid: string, r: State)
    requires cid in s.tracc && r.tracc == s.tracc - {cid}
    requires r.tracu == DelFrom(s.tracu, s.tracc[cid].uid, cid) && r.tracp == DelFrom(s.tracp, s.tracc[cid].pid, cid)
    requires r.sz == s.sz - |s.tracc[cid].conns| && r.closed == s.closed + multiset(s.tracc[cid].conns)
    ensures r == Dropped(s, cid)
  {
  }

  lemma DelUnrepeated(ix: Index, key: string, cid: string)
    requires Unrepeated(ix)
    ensures Unrepeated(DelFrom(ix, key, cid))
  {
    if key in ix {
      WithoutIs(ix[key], cid);
    }
  }

  /** How many connections untracking `id` reports: those of an id, or the ids of a user or process that had any. */
  function Closed(t: Table, cids: seq<string>): nat {
    if cids == [] then 0
    else
      var c := cids[|cids| - 1];
      Closed(t, cids[..|cids| - 1]) + if c in t && t[c].conns != [] then 1 else 0
  }

  function Reported(s: State, id: string): nat {
    if id in s.tracc then |s.tracc[id].conns|
    else if Listed(s.tracu, id) != [] then Closed(s.tracc, s.tracu[id])
    else Closed(s.tracc, Listed(s.tracp, id))
  }

  /** addByPidLocked and addByUidLocked. */
  method AddByKey(ix: Index, key: string, cid: string) returns (r: Index)
    ensures r == AddTo(ix, key, cid)
  {
    if key == "" || cid == "" {
      return ix;
    }
    var cids := CopyUniq([Listed(ix, key), [cid]]);
    FlattenTwo(Listed(ix, key), [cid]);
    return ix[key := cids];
  }

  lemma PickedOnce(t: Table, rest: Table, cids: seq<string>, c: string)
    requires c in rest && c in t && ToSet(cids) == t.Keys - rest.Keys
    ensures ToSet(cids + [c]) == t.Keys - (rest - {c}).Keys
  {
    assert ToSet(cids + [c]) == ToSet(cids) + {c};
  }

  /** Closes every connection, one id at a time in whatever order the table yields them. */
  method CloseAll(t: Table) returns (cids: seq<string>, ghost shut: multiset<nat>)
    ensures shut == Live(t)
    ensures ToSet(cids) == t.Keys && |cids| == |t|
  {
    cids, shut := [], multiset{};
    var rest := t;
    while rest != map[]
      invariant rest.Keys <= t.Keys
      invariant shut + Live(rest) == Live(t)
      invariant ToSet(cids) == t.Keys - rest.Keys && |cids| + |rest| == |t|
      decreases |rest|
    {
      var c :| c in rest;
      LiveWithout(rest, c);
      PickedOnce(t, rest, cids, c);
      shut := shut + multiset(rest[c].conns);
      cids := cids + [c];
      rest := rest - {c};
    }
  }

  class ConnTable {
    var tracc: Table
    var tracu: Index
    var tracp: Index
    var sz: int
    ghost var closed: multiset<nat>

    ghost function Now(): State
      reads this
    {
      State(tracc, tracu, tracp, sz, closed)
    }

    constructor ()
      ensures Now() == Run([]) && Inv(Now())
    {
      tracc, tracu, tracp, sz, closed := map[], map[], map[], 0, multiset{};
    }

    method AddLocked(cid: string, uid: string, pid: string, conns: seq<nat>) returns (n: nat)
      modifies this
      ensures Now() == Added(old(Now()), cid, uid, pid, conns)
      ensures n == |tracc[cid].conns|
    {
      if cid !in tracc {
        tracc := tracc[cid := Stat(conns, uid, pid)];
      } else {
        var v := tracc[cid];
        tracc := tracc[cid := v.(conns := v.conns + conns)];
      }
      n := |tracc[cid].conns|;
      tracp := AddByKey(tracp, pid, cid);
      tracu := AddByKey(tracu, uid, cid);
      sz := sz + |conns|;
    }

    method DelByUid(uid: string, cid: string)
      requires uid in tracu ==> NoDups(tracu[uid])
      modifies this`tracu
      ensures tracu == DelFrom(old(tracu), uid, cid)
    {
      if uid == "" || uid !in tracu {
        return;
      }
      if cid == "" {
        tracu := tracu - {uid};
        return;
      }
      var found, rem := DeleteFrom(tracu[uid], cid);
      if found {
        tracu := if rem == [] then tracu - {uid} else tracu[uid := rem];
      }
    }

    method DelByPid(pid: string, cid: string)
      requires pid in tracp ==> NoDups(tracp[pid])
      modifies this`tracp
      ensures tracp == DelFrom(old(tracp), pid, cid)
    {
      if pid == "" || pid !in tracp {
        return;
      }
      if cid == "" {
        tracp := tracp - {pid};
        return;
      }
      var found, rem := DeleteFrom(tracp[pid], cid);
      if found {
        tracp := if rem == [] then tracp - {pid} else tracp[pid := rem];
      }
    }

    method DropCid(cid: string) returns (n: nat)
      requires Unrepeated(tracu) && Unrepeated(tracp) && cid in tracc
      modifies this
      ensures Now() == Dropped(old(Now()), cid) && Unrepeated(tracu) && Unrepeated(tracp)
      ensures n == |old(tracc)[cid].conns|
    {
      var v := tracc[cid];
      ghost var was := Now();
      DelUnrepeated(tracu, v.uid, cid);
      DelUnrepeated(tracp, v.pid, cid);
      n := |v.conns|;
      closed := closed + multiset(v.conns);
      sz := sz - n;
      DelByUid(v.uid, cid);
      DelByPid(v.pid, cid);
      tracc := tracc - {cid};
      DroppedIs(was, cid, Now());
    }

    /**
     delLocked and untrackBatchLocked call each other. `level` counts how deep that can still go: a list
     of tracked ids never comes back to an index.
     */
    method DelLocked(id: string, ghost level: nat) returns (n: nat)
      requires Unrepeated(tracu) && Unrepeated(tracp) && (id in tracc || (level > 0 && Direct(Now(), id)))
      modifies this
      ensures Now() == Deleted(old(Now()), id) && Unrepeated(tracu) && Unrepeated(tracp)
      ensures n == Reported(old(Now()), id)
      decreases level, 0
    {
      if id in tracc {
        n := DropCid(id);
        return;
      }
      var cids := Listed(tracu, id);
      if cids == [] {
        cids := Listed(tracp, id);
      }
      if cids == [] {
        return 0;
      }
      var out := UntrackIndexed(cids);
      n := |out|;
    }

    /** untrackBatchLocked on a list taken from an index. */
    method UntrackIndexed(cids: seq<string>) returns (out: seq<string>)
      requires Unrepeated(tracu) && Unrepeated(tracp) && NoDups(cids) && forall c :: c in cids ==> c in tracc
      modifies this
      ensures Now() == DroppedAll(old(Now()), cids) && Unrepeated(tracu) && Unrepeated(tracp)
      ensures |out| == Closed(old(tracc), cids)
      decreases 0, 1
    {
      ghost var s := Now();
      out := [];
      var i := 0;
      while i < |cids|
        invariant i <= |cids|
        invariant Now() == DroppedAll(s, cids[..i]) && Unrepeated(tracu) && Unrepeated(tracp)
        invariant forall j :: i <= j < |cids| ==> cids[j] in tracc && tracc[cids[j]] == s.tracc[cids[j]]
        invariant |out| == Closed(s.tracc, cids[..i])
      {
        assert cids[..i + 1][..i] == cids[..i];
        var n := DelLocked(cids[i], 0);
        if n > 0 {
          out := out + [cids[i]];
        }
        i := i + 1;
      }
      assert cids[..i] == cids;
    }

    /** untrackBatchLocked on what a caller asks for. */
    method UntrackBatch(ids: seq<string>) returns (out: seq<string>)
      requires Inv(Now())
      modifies this
      ensures Inv(Now()) && Now() == DeletedAll(old(Now()), ids)
      ensures forall id :: id in out ==> id in ids
    {
      ghost var s := Now();
      out := [];
      var i := 0;
      while i < |ids|
        invariant i <= |ids|
        invariant Inv(Now()) && Now() == DeletedAll(s, ids[..i])
        invariant forall id :: id in out ==> id in ids
      {
        assert ids[..i + 1][..i] == ids[..i];
        InvDirect(Now(), ids[i]);
        DeletedInv(Now(), ids[i]);
        var n := DelLocked(ids[i], 1);
        if n > 0 {
          out := out + [ids[i]];
        }
        i := i + 1;
      }
      assert ids[..i] == ids;
    }

    method Clear() returns (cids: seq<string>)
      modifies this
      ensures Now() == Cleared(old(Now()))
      ensures ToSet(cids) == old(tracc).Keys && |cids| == |old(tracc)|
    {
      ghost var shut;
      cids, shut := CloseAll(tracc);
      closed := closed + shut;
      tracc, tracu, tracp, sz := map[], map[], map[], 0;
    }
  }
}
