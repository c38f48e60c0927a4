/** The admin API's edits: store first, then the pool, then the cluster. */
module Api {
  import opened Records
  import opened StoreSpec
  import opened PoolSpec
  import opened Store
  import opened Pool
  import opened VcsyncSpec
  import opened Convergence
  import opened Vcsync

  datatype ApiError = OwnedByGitOps | Refused(error: StoreError)

  /** Every pooled client serves a stored vCenter, with the endpoint on record. */
  ghost predicate Agrees(p: PoolState, s: StoreState, isoCache: string) {
    forall id :: id in p.clients ==>
        id in s.vcenters && SameEndpoint(p.clients[id].ep, EndpointFrom(s.vcenters[id], isoCache))
  }

  /** The state after a record was put, and perhaps its ConfigMap noted. */
  lemma PutThenNoted(s: StoreState, vc: VCenter, newId: string, rec: VCenter)
    requires Inv(s) && FreshId(s, newId) && vc.id != "" && UpsertRecord(s, vc, newId) == Ok(rec)
    ensures rec.id == vc.id && Inv(Put(s, rec))
  {
    UpsertRecordOk(s, vc, newId);
    PutKeepsInv(s, rec);
  }

  lemma NotedIsThere(s: StoreState, t: StoreState, id: string)
    requires NotesConfigMap(s, t, id) && id in s.vcenters
    ensures id in t.vcenters
  {
  }

  lemma DropAgrees(p: PoolState, s: StoreState, rec: VCenter, t: StoreState, isoCache: string)
    requires Agrees(p, s, isoCache) && NotesConfigMap(Put(s, rec), t, rec.id)
    ensures Agrees(Dropped(p, rec.id), t, isoCache)
  {
  }

  class Server {
    const st: Store
    const pool: Pool
    /** Outside a cluster there is nothing to keep in step. */
    const sync: Sync?

    constructor (st: Store, pool: Pool, sync: Sync?)
      ensures this.st == st && this.pool == pool && this.sync == sync
    {
      this.st, this.pool, this.sync := st, pool, sync;
    }

    ghost function Cluster(): set<object> {
      if sync == null then {} else {sync.kc}
    }

    ghost predicate Valid()
      reads st, st.disk, pool, pool.created, Cluster()
    {
      && st.Valid() && pool.Valid() && Inv(st.S())
      && (sync != null ==> sync.st == st && sync.Valid())
    }

    ghost predicate Coherent()
      reads st, pool, pool.created
    {
      Agrees(pool.Abs(), st.S(), pool.isoCache)
    }

    /** Nothing of the cluster was touched by the gateway. */
    twostate predicate ClusterLeftAlone()
      reads Cluster()
    {
      sync != null ==> sync.kc.writes == old(sync.kc.writes) && sync.kc.deletes == old(sync.kc.deletes)
    }

    /** Mirror an edit to the cluster; the record as it then is. */
    method Synced(id: string, fallback: VCenter) returns (vc: VCenter)
      requires Valid()
      modifies st, st.disk, Cluster()
      ensures Valid() && st.Extends() && NotesConfigMap(old(st.S()), st.S(), id)
      ensures sync == null ==> st.S() == old(st.S())
      ensures sync != null ==>
                && OnlyOwnedWrites(old(sync.kc.writes), sync.kc.writes) && |sync.kc.writes| <= |old(sync.kc.writes)| + 1
                && sync.kc.deletes == old(sync.kc.deletes)
      ensures id in old(st.vcenters) && old(st.vcenters)[id].configOrigin == GitOps ==>
                ClusterLeftAlone() && st.S() == old(st.S())
      ensures vc == if id in st.vcenters then Redact(st.vcenters[id]) else fallback
      ensures sync != null && sync.Quiet() && id in old(st.vcenters) && old(st.vcenters)[id].configOrigin != GitOps ==>
                && sync.kc.secrets == old(sync.kc.secrets)
                && ExportStep((old(st.S()), old(sync.kc.cms)), Redact(old(st.vcenters)[id]), (st.S(), sync.kc.cms))
    {
      if sync != null {
        ghost var s := st.S();
        var _ := sync.Saved(id);
        NotingKeepsInv(s, st.S(), id);
      }
      var found := st.GetVCenter(id);
      vc := if found.Some? then found.value else fallback;
    }

    /** What follows a stored edit: drop the client, tell the cluster. */
    method Announce(id: string, fallback: VCenter) returns (vc: VCenter)
      requires Valid()
      modifies st, st.disk, pool, pool.created, Cluster()
      ensures Valid() && st.Extends() && NotesConfigMap(old(st.S()), st.S(), id)
      ensures pool.Abs() == Dropped(old(pool.Abs()), id)
      ensures id in old(st.vcenters) && old(st.vcenters)[id].configOrigin == GitOps ==> ClusterLeftAlone()
      ensures vc == if id in st.vcenters then Redact(st.vcenters[id]) else fallback
      ensures sync != null && sync.Quiet() && id in old(st.vcenters) && old(st.vcenters)[id].configOrigin != GitOps ==>
                && sync.kc.secrets == old(sync.kc.secrets)
                && ExportStep((old(st.S()), old(sync.kc.cms)), Redact(old(st.vcenters)[id]), (st.S(), sync.kc.cms))
    {
      hide ExportStep, Inv, Redact, NotesConfigMap, Dropped, PoolOk, OnlyOwnedWrites;
      pool.Invalidate(id);
      vc := Synced(id, fallback);
    }

    /** PUT: the edit is stored, its old client dropped, then the cluster told. */
    method EditVCenter(id: string, vc: VCenter, newId: string) returns (r: Result<VCenter, StoreError>)
      requires Valid() && FreshId(st.S(), newId) && id != ""
      modifies st, st.disk, pool, pool.created, Cluster()
      ensures Valid() && st.Extends()
      ensures var rec := UpsertRecord(old(st.S()), vc.(id := id), newId);
              && (rec.Err? ==>
                r == Err(rec.error) && st.S() == old(st.S()) && pool.Abs() == old(pool.Abs()) && ClusterLeftAlone())
              && (rec.Ok? && r.Err? ==>
                st.S() == Put(old(st.S()), rec.value) && pool.Abs() == old(pool.Abs()) && ClusterLeftAlone()
                && !st.disk.reliable)
              && (r.Ok? ==>
                && rec.Ok? && NotesConfigMap(Put(old(st.S()), rec.value), st.S(), id)
                && pool.Abs() == Dropped(old(pool.Abs()), id)
                && (rec.value.configOrigin == GitOps ==> ClusterLeftAlone()))
      ensures old(Coherent()) && (r.Ok? || st.S() == old(st.S())) ==> Coherent()
      ensures r.Ok? ==>
                var rec := UpsertRecord(old(st.S()), vc.(id := id), newId).value;
                && r == Ok(Redact(st.vcenters[id]))
                && (sync != null && sync.Quiet() && rec.configOrigin != GitOps ==>
                  && sync.kc.secrets == old(sync.kc.secrets)
                  && ExportStep((Put(old(st.S()), rec), old(sync.kc.cms)), Redact(rec), (st.S(), sync.kc.cms)))
    {
      hide ExportStep, UpsertRecord, Inv, Agrees, Redact, NotesConfigMap, Dropped, PoolOk, Store.HistoryOk;
      ghost var s, p := st.S(), pool.Abs();
      var out := st.UpsertVCenter(vc.(id := id), newId);
      ghost var rec := UpsertRecord(s, vc.(id := id), newId);
      if rec.Ok? {
        PutThenNoted(s, vc.(id := id), newId, rec.value);
      }
      if out.Err? {
        return out;
      }
      ghost var stored := st.S();
      var now := Announce(id, out.value);
      NotedIsThere(stored, st.S(), id);
      r := Ok(now);
      if Agrees(p, s, pool.isoCache) {
        DropAgrees(p, s, rec.value, st.S(), pool.isoCache);
      }
    }

    /** Whether the vCenter is one the cluster's owners manage. */
    predicate Owned(id: string)
      reads st
    {
      sync != null && id in st.vcenters && st.vcenters[id].configOrigin == GitOps
    }

    /** What follows a stored deletion: drop the client, delete the runtime ConfigMap. */
    method Withdraw(id: string, vc: VCenter)
      requires Valid()
      modifies pool, pool.created, Cluster()
      ensures Valid() && pool.Abs() == Dropped(old(pool.Abs()), id)
      ensures sync != null ==> sync.kc.writes == old(sync.kc.writes)
      ensures sync != null && sync.kc.deletes != old(sync.kc.deletes) ==>
                && vc.configOrigin == Runtime && |sync.kc.deletes| == |old(sync.kc.deletes)| + 1
                && sync.kc.deletes[|old(sync.kc.deletes)|].name == vc.configMap
      ensures sync != null && sync.Quiet() && vc.configOrigin == Runtime && vc.configMap != "" ==>
                sync.kc.cms == old(sync.kc.cms) - {vc.configMap}
    {
      hide Inv, Dropped, PoolOk;
      pool.Invalidate(id);
      if sync != null {
        var _ := sync.Deleted(vc);
      }
    }

    /** DELETE: refused for what GitOps owns; else the store forgets the vCenter and its
        mappings, its client is closed, and its runtime ConfigMap is deleted. When the state
        file cannot be written the last two are left out. */
    method DeleteVCenter(id: string) returns (r: Result<(), ApiError>)
      requires Valid()
      modifies st, st.disk, pool, pool.created, Cluster()
      ensures Valid() && st.Extends()
      ensures old(Owned(id)) || id !in old(st.vcenters) ==>
                && r == Err(if old(Owned(id)) then OwnedByGitOps else Refused(StoreError.NotFound))
                && st.S() == old(st.S()) && pool.Abs() == old(pool.Abs()) && ClusterLeftAlone()
      ensures !old(Owned(id)) && id in old(st.vcenters) ==>
                && st.S() == WithoutVCenter(old(st.S()), id)
                && (r.Err? ==>
                  && r.error == Refused(PersistFailed) && pool.Abs() == old(pool.Abs())
                  && ClusterLeftAlone() && !st.disk.reliable)
                && (r.Ok? ==>
                  && pool.Abs() == Dropped(old(pool.Abs()), id)
                  && Removed(old(st.vcenters)[id]))
      ensures old(Coherent()) && (r.Ok? || st.S() == old(st.S())) ==> Coherent()
    {
      hide Inv, Dropped, PoolOk, Agrees, WithoutVCenter, Store.HistoryOk;
      ghost var s, p := st.S(), pool.Abs();
      if sync != null {
        var allowed := sync.CheckDelete(id);
        if !allowed {
          return Err(OwnedByGitOps);
        }
      }
      var vc := st.GetVCenter(id);
      var deleted := st.DeleteVCenter(id);
      if deleted.Err? {
        if id in s.vcenters {
          WithoutKeepsInv(s, id);
        }
        return Err(Refused(deleted.error));
      }
      WithoutKeepsInv(s, id);
      Withdraw(id, vc.value);
      if Agrees(p, s, pool.isoCache) {
        ForgetAgrees(p, s, id, pool.isoCache);
      }
      r := Ok(());
    }

    /** The cluster lost at most the runtime ConfigMap of vc, and if nothing failed, exactly that. */
    twostate predicate Removed(vc: VCenter)
      reads Cluster()
    {
      sync != null ==>
        && sync.kc.writes == old(sync.kc.writes)
        && (sync.kc.deletes != old(sync.kc.deletes) ==>
          && vc.configOrigin == Runtime && |sync.kc.deletes| == |old(sync.kc.deletes)| + 1
          && sync.kc.deletes[|old(sync.kc.deletes)|].name == vc.configMap)
        && (sync.Quiet() && vc.configOrigin == Runtime && vc.configMap != "" ==>
          sync.kc.cms == old(sync.kc.cms) - {vc.configMap})
    }
  }

  lemma WithoutKeepsInv(s: StoreState, id: string)
    requires Inv(s) && id in s.vcenters
    ensures Inv(WithoutVCenter(s, id))
  {
    StepKeepsInv(s, StoreSpec.DeleteVCenter(id), WithoutVCenter(s, id));
  }

  lemma ForgetAgrees(p: PoolState, s: StoreState, id: string, isoCache: string)
    requires Agrees(p, s, isoCache)
    ensures Agrees(Dropped(p, id), WithoutVCenter(s, id), isoCache)
  {
  }

  /** No other record can be taken for r when r's ConfigMap is loaded: none is on that ConfigMap,
      and none of the same name is without one. */
  ghost predicate Unclaimed(s: StoreState, r: VCenter) {
    forall id :: id in s.vcenters ==>
      s.vcenters[id].configMap != r.configMap && (s.vcenters[id].name == r.name ==> s.vcenters[id].configMap != "")
  }

  function Revived(r: VCenter): VCenter {
    r.(password := "", passwordSource := NoSource)
  }

  /** When the runtime ConfigMap of a deleted vCenter is left behind, because the state file or
      the cluster call failed, loading it brings the vCenter back under its id, without its typed
      password and without its mappings, exactly when no other record can be taken for it. */
  lemma LeftoverConfigMapRevives(s: StoreState, r: VCenter, secrets: Secrets, newId: string)
    requires Inv(s) && r.id in s.vcenters && s.vcenters[r.id] == r && FreshId(s, newId)
    requires r.configMap != "" && r.configOrigin == Runtime && r.credentialsSecret.Some?
    requires r.credentialsSecret.value.name !in secrets
    ensures var t := WithoutVCenter(s, r.id);
            var cm := Render(Redact(r), r.configMap, ExportRef(r, r.configMap));
            && (Step(t, ApplyOp(cm, secrets, newId), Put(t, Revived(r))) <==> Unclaimed(t, r))
            && forall u :: u in t.byUUID ==> t.byUUID[u].vcenterId != r.id
  {
    hide Inv, Matches, Merged, WithoutVCenter, ApplyOp, FieldsOf, RecordOk, Unclaimed;
    var t := WithoutVCenter(s, r.id);
    var cm := Render(Redact(r), r.configMap, ExportRef(r, r.configMap));
    WithoutAtAll(s, r.id);
    ReadBackAs(r, cm, secrets, newId);
    NoneFoundIff(t, r, FieldsOf(cm));
    var op := ApplyOp(cm, secrets, newId);
    WithoutKeepsInv(s, r.id);
    if Step(t, op, Put(t, Revived(r))) {
      var found :| Matches(t, op.cfg, found) && Put(t, Revived(r)) ==
          Put(t, Merged(op.cfg, op.setDryRun, op.secret, found, newId));
      OnlyNoneAdds(t, op, found, r);
    }
  }

  lemma WithoutAtAll(s: StoreState, id: string)
    requires Inv(s) && id in s.vcenters
    ensures RecordOk(id, s.vcenters[id])
    ensures var t := WithoutVCenter(s, id);
            && id !in t.vcenters && t.vcenters.Keys <= s.vcenters.Keys
            && forall u :: u in t.byUUID ==> t.byUUID[u].vcenterId != id
  {
  }

  /** What is read from the leftover, and the record it becomes when nothing is found. */
  lemma ReadBackAs(r: VCenter, cm: ConfigMap, secrets: Secrets, newId: string)
    requires RecordOk(r.id, r) && r.configMap != "" && r.configOrigin == Runtime && r.credentialsSecret.Some?
    requires r.credentialsSecret.value.name !in secrets
    requires cm == Render(Redact(r), r.configMap, ExportRef(r, r.configMap))
    ensures var op := ApplyOp(cm, secrets, newId);
            && op.ApplyConfig? && op.cfg == FieldsOf(cm) && op.cfg.id == r.id && op.cfg.configMap == r.configMap
            && op.newId == newId
            && WithDefaults(op.cfg).name == r.name && ConfigValid(op.cfg)
            && Merged(op.cfg, op.setDryRun, op.secret, None, newId) == Revived(r)
  {
    assert IsRuntime(cm);
    assert Credentials(secrets, FieldsOf(cm)) == ("", FieldsOf(cm));
  }

  lemma NoneFoundIff(t: StoreState, r: VCenter, cfg: VCenter)
    requires cfg.id == r.id && r.id !in t.vcenters && cfg.configMap == r.configMap != ""
    requires WithDefaults(cfg).name == r.name
    ensures Matches(t, cfg, None) <==> Unclaimed(t, r)
  {
    hide WithDefaults;
  }

  /** Only a new record adds an id. */
  lemma OnlyNoneAdds(t: StoreState, op: Op, found: Option<VCenter>, r: VCenter)
    requires Inv(t) && op.ApplyConfig? && Matches(t, op.cfg, found) && r.id !in t.vcenters
    requires Put(t, Revived(r)) == Put(t, Merged(op.cfg, op.setDryRun, op.secret, found, op.newId))
    ensures found == None
  {
    MatchedIsStored(t, op.cfg, found);
    hide Inv, Matches;
    assert r.id in Put(t, Revived(r)).vcenters;
  }

  lemma NotingKeepsInv(s: StoreState, t: StoreState, id: string)
    requires Inv(s) && NotesConfigMap(s, t, id)
    ensures Inv(t)
  {
    if t != s {
      var name, ref :| t == PutAt(s, id, WithConfigMap(s.vcenters[id], name, Runtime, ref));
      assert RecordOk(id, s.vcenters[id]);
      PutKeepsInv(s, WithConfigMap(s.vcenters[id], name, Runtime, ref));
    }
  }
}
